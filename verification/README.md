# A verified model of ruduo

ruduo is a small event-loop library for TCP servers. This project models its four connected cores in
Dafny and proves what they are for:

- the **hashed timing wheel** (`src/timer.rs`): an array of slots, each the head of a doubly linked list
  threaded through a slab, with a cursor inside the slot that is being scanned. It is proved to be a
  priority queue over *effective due ticks*, under any interleaving of insertions, cancellations and moves;
- the **event loop** (`src/event_loop.rs`): the round of timer processing, how long the loop may sleep, and
  the send-then-wake protocol between any number of producers and one sleeping loop;
- the **outgoing byte stream** of a connection (`src/tcp_connection.rs`) over a compacting and growing
  **buffer** (`src/buffer.rs`) with its typed codec;
- the **dispatcher** (`src/tcp_server.rs`): callbacks that wait for timers, and tokens of many loops in one
  shared table.

## How the files fit together

`Powers`, `Slab` and `Ticks` hold what the rest counts with: the bit mask, the slab with its reused keys, and
milliseconds against ticks. `Agenda` says what a timer is without a wheel: live items with a due tick. The
wheel is built up in `Chains` (links), `Scan` (the cursor), `Trail` (how often the cursor looks at an entry)
and `Wheel` (all of it as one value); `Timer` holds the class whose methods are proved to move the agenda.
`Runs` proves what holds over whole runs of an agenda, `Handles` when a handle cancels its own entry and no
other, and `Session` shows that any sequence of calls on a `Timer` is such a run.

`Drain` and `Desk` specify one round of timer processing and the callbacks it delivers, `Dispatcher` holds
the classes `EventLoop`, `Dispatcher` and `Shared`. `OneShots` covers whole runs of one-shot timers, and
`Histories` shows that any sequence of calls on a `Dispatcher` with one-shot timers is such a run.
`Timing` is a loop on a clock; `EndToEnd` puts the classes on that clock. `Wakeup` and `Routing` are state
machines whose steps are those of concurrent threads, and `Servers` drives many dispatchers over one table
as a run of `Routing`. `Codec`, `Buffer` and `TypedQueue` cover the buffer, `Stream` and `Connection` the
outgoing bytes.

Four things about the code shape the statements.

- An insertion whose computed tick is not ahead of the wheel is put off by one tick (src/timer.rs:59-61).
  That puts it ahead only if it was the current tick; otherwise the entry lands in a slot that has been
  scanned and waits for the next rotation. The *effective due tick* of an item is the first tick after the
  current one that is congruent to its target and not below it; all timer properties are stated with it and
  hold for every insertion. An insertion is *disciplined* if its target is ahead of the wheel. With a wheel
  that has caught up with the clock this fails exactly for a delay of zero in the first millisecond of a
  tick, and then the timer is a whole rotation late (`Ticks.DisciplineOfDelay`, `Ticks.ZeroDelayWaitsARotation`).
  Handles are safe exactly as long as no insertion issues one that is still outstanding
  (`Handles.HandlesAreExactIff`); runs on a clock with positive delays are safe, requests for times that the
  wheel has passed are not (`Sessions.StaleHandleOnATimer`).
- A second one-shot timer for a mark that is pending replaces the callback but leaves the elder item in the
  wheel (src/tcp_server.rs:304-312). When the elder item fires, it runs the newer callback. It can run it
  too early exactly if the newer time is later than the moment of asking and the elder item's tick begins before it
  (`OneShots.PendingMarkIsEarlyIff`, `EndToEnd.PendingMarkOnALoop`).
- `send` hands all of its data to the buffer after an error other than WouldBlock, even if part of it was
  written already (src/tcp_connection.rs:137-140). The stream is conserved if and only if that never
  happens after a partial write (`Streams.ConservedExactly`).
- The limit on connections per loop is reported but not enforced (src/tcp_server.rs:142-145): the stream is
  shut down and taken in all the same. Within the limit tokens are disjoint; a full loop that takes in one more
  makes its neighbour's first token (`Routing.FullLoopCollides`).

Time, the answers of sockets, the clock readings of a round and the keys that the slab picks are parameters or
left open. Time never goes backwards. A `requires` of a method stands for a panic of the source: a time before
the start of the wheel, a division by a tick length of 0, too large a size for `retrieve` or `prepend`, a
token that is not in the slab or is in the table already.

## Model

| member | source | states |
|---|---|---|
| `Powers.NextPowerOfTwo` | src/timer.rs:29-32 | the result is a power of two, not below the argument and less than twice it |
| `Powers.NextPowerOfTwoIsLeast` | src/timer.rs:29-32 | no smaller power of two is large enough |
| `Powers.MaskIsMod` | src/timer.rs:84-86 | masking with the number of slots less one is the remainder by the number of slots, bit by bit |
| `Slabs.SomeKeyIsOffered` | src/timer.rs:96-97 | an insertion into a slab always finds a key, reused or new |
| `Slabs.OfferedKeyBelowCapacity` | src/timer.rs:92-97 | a slab that never holds more than its capacity hands out only keys below it, although keys are reused |
| `Ticks.CeilTickIsFirst` | src/timer.rs:56-57 | the computed tick is the first that begins at or after the requested time |
| `Ticks.TickHasBegun` | src/timer.rs:142-144 | a tick is not above the tick of a time exactly when it has begun by then |
| `Ticks.MsToTickIsLast` | src/timer.rs:142-144 | the tick of a time is the last one that has begun by then |
| `Ticks.TargetTickBounds` | src/timer.rs:55-61 | the stored tick begins at or after the requested time and less than two ticks later; it is ahead of the wheel exactly when the computed tick is not behind it |
| `Ticks.TargetTickIsExact` | src/timer.rs:55-61 | ahead of the wheel the stored tick is the first after the current one that does not begin before the requested time; otherwise it is the tick after the first that does not begin before it |
| `Ticks.DisciplineOfDelay` | src/timer.rs:50-61 | with a wheel that has caught up with the clock an insertion is ahead of it if and only if the delay is positive or the tick has already begun |
| `Ticks.PositiveDelayIsDisciplined` | src/timer.rs:50-61 | a positive delay lands ahead of every wheel that is at most one tick past the clock, and after the clock's tick |
| `Ticks.ZeroDelayWaitsARotation` | src/timer.rs:55-61 | the exceptional case of a zero delay is due exactly one rotation after the current tick |
| `Ticks.PollTimeoutIsLongest` | src/event_loop.rs:123-138 | with no message waiting the wait is the longest that keeps the configured limit and the next tick, and unlimited exactly if neither limits it |
| `Agendas.EffectiveDueIsFirst` | src/timer.rs:88-106 | the effective due tick is the least tick after the current one that is congruent to the target and not below it; it is at most max(target, current + slots) |
| `Agendas.InsertIsWellTimed` | src/timer.rs:88-106 | an insertion keeps every live item not overdue and is itself due after the current tick |
| `Agendas.StepsAreWellTimed` | src/timer.rs:67-82 | cancelling, firing the first item and passing over quiet ticks keep every live item not overdue |
| `Agendas.FirstIsUnique` | src/timer.rs:150-175 | at most one live item can be the next to be returned |
| `Agendas.SomethingIsFirst` | src/timer.rs:150-175 | there is a next item to return exactly when something is due |
| `Chains.LinkedIsThreaded` | src/timer.rs:88-106 | putting an entry in front keeps every slot an acyclic doubly linked list of exactly its entries |
| `Chains.UnlinkedIsThreaded` | src/timer.rs:114-140 | taking an entry out keeps every slot an acyclic doubly linked list of exactly its entries, whether the slab entry is removed before or after |
| `Scans.InsertInStep` | src/timer.rs:88-106 | an insertion into the slot being scanned lands before the cursor, which stays on its entry |
| `Scans.DropInStep` | src/timer.rs:128-139 | removing any entry, also the one under the cursor, leaves the cursor on the next entry to look at |
| `Scans.RipeIsFirst` | src/timer.rs:161-167 | an entry under the cursor whose tick is not above the current one has the least due tick of all and is the latest inserted of those |
| `Scans.AdvanceInStep` | src/timer.rs:157-159 | at the end of a chain nothing is due in this tick, so moving to the next slot skips nothing |
| `Trails.VisitsAreRare` | src/timer.rs:153-173 | between two ticks an entry is looked at no more often than the number of rotations, rounded up |
| `Wheels.InsertConsistent` | src/timer.rs:88-106 | an insertion keeps lists, cursor and agenda in agreement |
| `Wheels.DropConsistent` | src/timer.rs:75-81 | a removal keeps lists, cursor and agenda in agreement, and both call orders give the same slab |
| `Wheels.AdvanceConsistent` | src/timer.rs:157-159 | the step to the next tick keeps the agreement and passes a tick in which nothing is due |
| `Wheels.PassConsistent` | src/timer.rs:168-171 | moving the cursor past an entry of a later rotation keeps the agreement and leaves less of the chain ahead |
| `Wheels.FireConsistent` | src/timer.rs:161-167 | firing takes out the first item of the agenda and keeps the agreement |
| `Timers.Timer.constructor` | src/timer.rs:29-43 | a new wheel is consistent and empty, with slots and capacity rounded up to powers of two, for every tick length |
| `Timers.Timer.Setup` | src/timer.rs:46-48 | fixes the time of tick 0 |
| `Timers.Timer.SlotFor` | src/timer.rs:84-86 | the slot of a tick is its remainder by the number of slots |
| `Timers.Timer.TimeoutMs` | src/timer.rs:50-53 | inserts for a time a delay from now; the outcome is that of an insertion at that time |
| `Timers.Timer.TimeoutMsAt` | src/timer.rs:55-64 | fails exactly when the timer is full, changing nothing; otherwise adds one item with its token and interval under a free key, due at the first scan of its slot that is neither begun nor before the stored tick; the stored tick, in the handle, is exactly the one of `Ticks.TargetTickIsExact` |
| `Timers.Timer.Insert` | src/timer.rs:88-106 | the same for a given tick, keeping the wheel consistent |
| `Timers.Timer.Clear` | src/timer.rs:67-82 | returns true and removes one item exactly when a live item has the handle's key and tick; otherwise changes nothing |
| `Timers.Timer.Unlink` | src/timer.rs:114-140 | redirects the neighbours, the head of the slot and the cursor past the entry and changes nothing else |
| `Timers.Timer.Trigger` | src/timer.rs:161-167 | the ripe entry under the cursor is the first of all live items and is the one returned |
| `Timers.Timer.TickTo` | src/timer.rs:150-175 | is a priority queue: returns token and interval of the live item with the least effective due tick, the latest inserted among equals, and stops at that tick; returns nothing exactly when nothing is due by the given tick; terminates |
| `Timers.Timer.VisitsAreBounded` | src/timer.rs:153-173 | over any history of calls, an entry is looked at at most once a rotation |
| `Timers.Timer.NextTickInMs` | src/timer.rs:177-190 | the wait to the start of the tick after the current one, none when the timer is empty |
| `Runs.RunKeepsTime` | src/timer.rs:88-175 | in every reachable state no live item is overdue |
| `Runs.ItemStaysUntilTaken` | src/timer.rs:67-175 | an item leaves only by being returned or by being cancelled with its own handle's key and tick |
| `Runs.BoundedDelay` | src/timer.rs:55-64 | every insertion that is not cancelled has been returned once the wheel has passed max(target, current + slots), at a tick that is not below the target |
| `Handles.HandlesAreExactIff` | src/timer.rs:67-106 | over any run, disciplined or not, every outstanding handle cancels its own entry if that is live and nothing otherwise, if and only if no insertion issues a handle equal to one still outstanding |
| `Handles.InsertIsSafeIff` | src/timer.rs:55-106 | before an insertion: it leaves all handles exact under whatever free key it gets, if and only if every outstanding handle for its tick has its key in use |
| `Handles.DisciplinedStepIsFaithful` | src/timer.rs:67-106 | a disciplined insertion never issues an outstanding handle, and with it every outstanding handle stays exact under key reuse |
| `Handles.HandlesAreSafe` | src/timer.rs:67-82 | in a disciplined run a handle cancels exactly when the entry issued with it is live, and it removes that entry |
| `Handles.ClockedIsDisciplined` | src/timer.rs:50-64 | a run whose moves follow a clock that does not go back and whose insertions are for later times is disciplined |
| `Handles.HandlesAreSafeOnAClock` | src/timer.rs:50-82 | on such a clock every handle cancels its own entry and no other |
| `Handles.HandleIsKept` | src/timer.rs:105 | a handle stays with its owner until its one use |
| `Handles.StaleHandleRemovesAnother` | src/timer.rs:55-82 | in every idle wheel two requests for the same time that the wheel has passed get equal handles if they get the same key, and the first handle then removes the second item |
| `Sessions.StaleHandleOnATimer` | src/timer.rs:55-82 | on every new timer the start time requested twice, a rotation apart, gives two equal handles, and the first, whose item has fired, cancels the second item |
| `Sessions.Drive` | src/timer.rs:50-175 | any sequence of calls on a timer, each carried out in turn, is a run as above, with the tokens and intervals returned |
| `Drains.DrainFires` | src/event_loop.rs:104-113 | a round that fires its next item has still fired only due items, in order, and touched nothing else |
| `Drains.DrainRepeats` | src/event_loop.rs:107-112 | a repeating item is put back once, beyond the round and without an interval |
| `Drains.DrainEnds` | src/event_loop.rs:115-118 | a finished round fired exactly the items due by its tick, once each, in order of due tick |
| `Desks.AddKeepsOneToOne` | src/tcp_server.rs:304-312 | a new timer keeps pending callbacks and wheel entries in one-to-one correspondence if and only if its mark was not pending |
| `Desks.AddOneShot` | src/tcp_server.rs:304-312 | a new one-shot timer keeps the correspondence and the record of requests |
| `Desks.LeaveOneShot` | src/tcp_server.rs:323-345 | a callback that is cancelled or taken out was neither before, and the correspondence is kept |
| `Desks.FireOneShot` | src/event_loop.rs:102-113 | the item fired by a round has its own callback waiting, whose time has come |
| `Desks.PendingMatches` | src/tcp_server.rs:323-325 | the stored handle of a pending one-shot timer cancels its own item |
| `Desks.DeliveredRuns` | src/tcp_server.rs:338-360 | a round runs the repeating callback of each repeating item, every time, and the one-shot callback of any other, the first time; it takes out exactly those one-shot callbacks and leaves all repeating ones in |
| `Desks.RoundFires` | src/event_loop.rs:104-113 | one firing of a round delivers one callback and, with one-shot timers, takes out its own |
| `Desks.RoundRepeats` | src/event_loop.rs:107-113 | one repetition refreshes the handle, runs the repeating callback if its connection is open, and leaves it in |
| `Desks.RoundEnds` | src/event_loop.rs:115-118 | what a whole round fired, delivered and took out |
| `OneShots.StepIsSound` | src/tcp_server.rs:304-345 | adding, cancelling and firing keep the correspondence, and nothing taken or cancelled comes back |
| `OneShots.Claim` | src/tcp_server.rs:338-345 | a firing takes the callback asked for with its own timer, not before its time, not after a cancel |
| `OneShots.FiringTakesItsOwn` | src/tcp_server.rs:304-345 | over any run each firing takes the callback asked for with its own timer, not before its time; it is not cancelled before or in any later state |
| `OneShots.CallbacksAreTakenOnce` | src/tcp_server.rs:304-345 | over any run no callback is taken out by two firings |
| `OneShots.PendingMarkTakesTheNewer` | src/tcp_server.rs:304-345 | after a request under a mark that is pending, the firing of the elder item takes out and runs the newer callback, and leaves the newer item in the wheel without one |
| `OneShots.PendingMarkIsEarlyIff` | src/tcp_server.rs:304-345 | after a request under a pending mark at time `asked`, some round fires the elder item and takes the newer callback out before its time, if and only if that time is later than `asked` and the elder item's tick begins before it; otherwise no run does, however it goes on |
| `Dispatching.Shared.AddConnection` | src/tcp_server.rs:387-393 | enters a token that is not in the table; a token that is there panics |
| `Dispatching.Shared.RemoveConnection` | src/tcp_server.rs:395-397 | strikes a token out and returns its loop if it was there |
| `Dispatching.Dispatcher.AddConnection` | src/tcp_server.rs:140-159 | runs the callback of the connection and then its reaction, stores it under a free key and enters offset plus key with this loop; a stream is refused exactly if it finds all room taken, and is stored all the same |
| `Dispatching.Dispatcher.RemoveConnection` | src/tcp_server.rs:188-193 | removes the connection of a token and strikes the token out |
| `Dispatching.Dispatcher.WithConnection` | src/tcp_server.rs:200-204 | runs a callback exactly if its connection is open |
| `Dispatching.Dispatcher.AddTimer` | src/tcp_server.rs:304-312 | a full wheel changes nothing; otherwise mark, handle and callback agree with the new item, and one-shot correspondence is kept for a fresh mark |
| `Dispatching.Dispatcher.AddTimer2` | src/tcp_server.rs:313-322 | the same for the insertion of a repeating timer |
| `Dispatching.Dispatcher.CancelTimer` | src/tcp_server.rs:323-332 | removes the one-shot timer of a mark, else the repeating one, and its item; the one-shot correspondence is kept |
| `Dispatching.Dispatcher.HandleTimeout` | src/tcp_server.rs:338-354 | a one-shot callback is taken out and run if its connection is open; a repeating one is run if its connection is open, and stays |
| `Dispatching.Dispatcher.RefreshTimeout` | src/tcp_server.rs:356-360 | replaces the handle of a one-shot mark and touches no repeating one |
| `Dispatching.EventLoop.constructor` | src/event_loop.rs:74-89 | a new loop has an empty wheel that starts now |
| `Dispatching.EventLoop.ScheduleAfter` | src/event_loop.rs:194-196 | an insertion without interval, a delay from now |
| `Dispatching.EventLoop.ScheduleEvery` | src/event_loop.rs:202-204 | an insertion with an interval |
| `Dispatching.EventLoop.Cancel` | src/event_loop.rs:206-208 | cancels the item that matches the handle |
| `Dispatching.EventLoop.PollWait` | src/event_loop.rs:123-138 | with a message waiting the poll does not block; otherwise it lasts as long as the configured limit and, with a timer pending, the next tick allow, and is unlimited exactly with neither |
| `Dispatching.EventLoop.Reschedule` | src/event_loop.rs:107-112 | the fired entry left room, so a repeating timer is always put back, for its interval after the clock reading, beyond the tick of the round; only a one-shot callback of the same mark gets the new handle |
| `Dispatching.EventLoop.Deliver` | src/event_loop.rs:104-113 | one turn of a round puts a repeating item back for its interval from now, delivers the callback, and leaves less that is due |
| `Dispatching.EventLoop.ProcessTimers` | src/event_loop.rs:102-121 | terminates, fires exactly what was due at the tick read at the start, once each and in order; makes exactly the calls of these items, one-shot and repeating, and leaves the repeating callbacks in; puts each repeating item back for its interval after its clock reading; and with one-shot timers takes out exactly their callbacks |
| `Routing.TokensAreDisjoint` | src/tcp_server.rs:90-92 | keys below the limit give different loops different tokens |
| `Routing.NeverPanics` | src/tcp_server.rs:387-390 | in a routed network the panic on a token dispatched twice cannot happen |
| `Routing.StepKeepsRouted` | src/tcp_server.rs:136-193 | every step of every loop keeps the table exact, as long as no loop exceeds the limit |
| `Routing.TokensAreRouted` | src/tcp_server.rs:136-193 | in every run within the limit no token is dispatched twice, and with all loops at rest the table maps exactly the live tokens to their owners |
| `Routing.AddIsTwoSteps` | src/tcp_server.rs:148-158 | below the limit every key on offer makes a new token, and adding a connection is two steps of the network |
| `Routing.RemoveIsTwoSteps` | src/tcp_server.rs:188-193 | removing a connection is two steps of the network |
| `Routing.FullLoopCollides` | src/tcp_server.rs:142-150 | a full loop that accepts one more connection makes the first token of its neighbour, and panics exactly when that one is in the table |
| `Servers.Accept` | src/tcp_server.rs:140-159 | a loop of a server with a free place takes a connection in as two steps of the network, under a new token |
| `Servers.Drop` | src/tcp_server.rs:188-193 | a loop of a server drops a connection as two steps of the network |
| `Servers.Serve` | src/tcp_server.rs:140-193 | any sequence of connections made and lost on any number of dispatchers over one table, each carried out in turn as two steps, is a run of the network within the limit; no token is dispatched twice, no stream is refused, and the table ends as the exact map of the live connections |
| `Servers.Open` | src/tcp_server.rs:86-95 | the loops of a new server meet the condition of `Serve` |
| `Timing.StepIsPunctual` | src/event_loop.rs:123-175 | no step of a loop lets a pending timer become overdue |
| `Timing.FiresInTime` | src/event_loop.rs:123-175 | a timer wanted at a time fires no earlier and less than three ticks later, and none is pending after that |
| `Timing.LatenessIsAttained` | src/timer.rs:177-190 | for every tick length some run is one millisecond short of three ticks late |
| `Timing.DrainedLeavesSurvivors` | src/event_loop.rs:102-121 | a round without repeating timers leaves exactly the items that are not due |
| `EndToEnd.Start` | src/event_loop.rs:74-89 | a new loop with its dispatcher meets the condition of `Run` |
| `EndToEnd.Run` | src/event_loop.rs:123-175 | through any sequence of requests, cancels, rounds and polls, each carried out in turn as a step of `Timing` (requests without delay or for a pending mark are passed over), every callback taken out was taken in [at, at + three ticks), once, none after its cancel; the calls made are exactly those taken out whose connection is open, in that order; and no pending one is overdue |
| `EndToEnd.PendingMarkOnALoop` | src/tcp_server.rs:304-345 | on every new loop, a mark asked for in 1 ms and again much later has its newer callback run one tick from now |
| `Histories.RoundIsRun` | src/event_loop.rs:102-121 | a whole round of the dispatcher is a sequence of firings, one for each item in order, and a step of the wheel |
| `Histories.Follow` | src/tcp_server.rs:304-354 | any sequence of requests, also late ones, cancels and rounds on a dispatcher with one-shot timers, each carried out in turn, is a run of `OneShots`, and the calls made are those asked for with the items that fired in it |
| `Wakeups.StepIsSound` | src/event_loop.rs:123-186 | every step of loop and producers conserves messages and the wake-up guarantee |
| `Wakeups.NoLostWakeup` | src/event_loop.rs:127-140 | in every interleaving, a loop committed to a blocking poll with messages waiting has its latch set or a producer about to set it, also after a Stop broke the previous drain |
| `Wakeups.QuietMeansHandled` | src/event_loop.rs:123-172 | when the loop blocks, no wake-up is pending and no producer is between send and wake, all messages have been handled |
| `Wakeups.LookCommits` | src/event_loop.rs:127-131 | a look commits the loop to a poll that may block exactly if no message waits |
| `Wakeups.MessageAfterLook` | src/event_loop.rs:127-140 | some run reaches a blocking poll with a message waiting and no latch set; its sender is about to wake the loop |
| `Wakeups.RunsUntilAsked` | src/event_loop.rs:143-186 | the loop goes on running exactly until a handler shuts it down or it finds no sender left, and it stops only then |
| `Wakeups.MessagesAreConserved` | src/event_loop.rs:151-172 | the messages handled followed by the queue are the messages of all sends so far, in order, overall and per producer |
| `Wakeups.WaitingMessagesAreReached` | src/event_loop.rs:151-186 | with messages waiting the loop can go on by itself unless a wake-up is on its way, and each of its steps handles the first message, comes nearer to it, or shuts the loop down |
| `Wakeups.Drain` | src/event_loop.rs:151-172 | the receiving loop, with producers doing anything between its turns, handles messages in order up to the first Stop or until it finds the queue empty, leaves the rest in the queue, goes on running only if no handler shut it down, and each of its turns is a step as above |
| `Codec.Widths` | src/buffer.rs:211-241 | the sizes are 1, 2, 4 and 8 bytes and the ranges those of signed integers of 8, 16, 32 and 64 bits |
| `Codec.BigEndianDigit` | src/buffer.rs:216-225 | the bytes are written highest first, each with the weight of those after it |
| `Codec.FromBigEndianOfConcat` | src/buffer.rs:231-241 | a wide value read is its high part, shifted, and its low part |
| `Codec.TwosComplement` | src/buffer.rs:211-241 | negative values are written as their complement to the modulus |
| `Codec.DecodeOfEncode` | src/buffer.rs:211-241 | decoding inverts two's complement big-endian encoding for all values of 8, 16, 32 and 64 bits |
| `Codec.EncodeOfDecode` | src/buffer.rs:211-241 | encoding inverts decoding for all byte strings of these widths |
| `Codec.EncodeIsPrefixFree` | src/buffer.rs:160-168 | a value and what follows it can be read off unambiguously |
| `Buffers.Buffer.constructor` | src/buffer.rs:29-35 | a new buffer is empty, with the prepend zone in front |
| `Buffers.Buffer.ReadableBytes` | src/buffer.rs:77-79 | the length of the content |
| `Buffers.Buffer.Retrieve` | src/buffer.rs:89-96 | drops a prefix of the content; taking all of it resets the indices |
| `Buffers.Buffer.RetrieveAll` | src/buffer.rs:98-101 | empties the buffer and keeps the storage |
| `Buffers.Buffer.Prepend` | src/buffer.rs:105-110 | puts bytes before the content and keeps the rest |
| `Buffers.Buffer.Append` | src/buffer.rs:114-119 | puts bytes after the content and keeps the storage bound |
| `Buffers.Buffer.EnsureWritable` | src/buffer.rs:121-144 | makes room without changing the content; its asserts hold; storage grows only if the space on both sides does not suffice, never while the content fits the initial size, and never beyond max(8 + peak, 2 * peak + 6) after that |
| `Buffers.Buffer.AppendAs` | src/buffer.rs:196-199 | appends the encoding of a value |
| `Buffers.Buffer.PrependAs` | src/buffer.rs:205-208 | prepends the encoding of a value |
| `Buffers.Buffer.PeekAs` | src/buffer.rs:160-168 | reads the one value whose encoding begins the content |
| `Buffers.Buffer.RetrieveAs` | src/buffer.rs:176-181 | takes the one value whose encoding begins the content |
| `Buffers.BoundIsAttained` | src/buffer.rs:121-144 | for every initial size and every peak some buffer needs all of the storage bound, so it cannot be improved |
| `Buffers.PrependThenRetrieve` | src/buffer.rs:176-208 | prepending a value and retrieving it gives it back and restores the content |
| `TypedQueues.WireIsInjective` | src/buffer.rs:160-199 | the bytes of a sequence of values determine the values, given the widths |
| `TypedQueues.FirstInFirstOut` | src/buffer.rs:160-199 | the values popped followed by those left are those there at first followed by those pushed |
| `TypedQueues.Perform` | src/buffer.rs:176-199 | one append or retrieve acts on the queue of values |
| `TypedQueues.Replay` | src/buffer.rs:160-199 | any interleaving of appends and retrieves of matching width behaves as a first-in first-out queue of values |
| `Streams.TryEnds` | src/tcp_connection.rs:118-145 | the direct writes go on until the socket has taken everything, refuses or fails, and have written what it offered, as far as there was something left |
| `Streams.SendActs` | src/tcp_connection.rs:115-155 | a send behind waiting bytes or interest in writing only queues; any other asks the socket first, and buffers what is left, or after a failure everything; a WriteComplete is issued exactly if the socket took everything |
| `Streams.SendIsSound` | src/tcp_connection.rs:115-155 | a send keeps order and length of the stream, and hands bytes over twice if and only if it breaks halfway |
| `Streams.FlushIsSound` | src/tcp_connection.rs:231-256 | writing out the buffer keeps the stream and hands nothing over twice |
| `Streams.RunIsSound` | src/tcp_connection.rs:115-256 | over any run what waits is waited for, and bytes are handed over twice exactly if some send breaks halfway |
| `Streams.SentIsPayload` | src/tcp_connection.rs:115-155 | what a stream counts as sent is the data of all sends, whatever happened in between |
| `Streams.ConservedExactly` | src/tcp_connection.rs:115-256 | over any run against any socket the bytes accepted followed by those buffered are the data of all sends, if and only if no send meets an error other than WouldBlock after a partial write |
| `Streams.HalfwayRepeats` | src/tcp_connection.rs:118-140 | a socket that takes one of two bytes and then fails gets the first byte twice |
| `Streams.FailuresAreRetried` | src/tcp_connection.rs:231-256 | any number of failures while writing out only repeats the write and changes nothing else |
| `Streams.FlushObligation` | src/tcp_connection.rs:118-245 | a non-empty output buffer implies interest in writing; unless a send broke, every WriteComplete comes with all sent bytes accepted, and without interest in writing all are accepted |
| `Streams.HalfClosedExactly` | src/tcp_server.rs:292-298 | over any run the connection is half closed exactly if some Shutdown message found no interest in writing |
| `Streams.ClosedWithAllAccepted` | src/tcp_server.rs:292-298 | at every Shutdown message that closes, the bytes accepted are the data of all sends before it, unless one of them broke |
| `Streams.FlushEnds` | src/tcp_connection.rs:231-256 | writing out ends only with an empty buffer, at an answer that would block, or with the answers used up; what is taken is what the socket offered, in order |
| `Streams.ReadingIsAsAsked` | src/tcp_connection.rs:70-108 | interest in reading is what was last asked for, whatever is sent or written out |
| `Streams.FlushEndsWaiting` | src/tcp_connection.rs:231-245 | interest in writing ends exactly with one more WriteComplete, when the buffer is empty |
| `Connections.TcpConnection.constructor` | src/tcp_connection.rs:68 | a new connection has sent and accepted nothing |
| `Connections.TcpConnection.EnableIo` | src/tcp_connection.rs:70-88 | adds an interest |
| `Connections.TcpConnection.DisableIo` | src/tcp_connection.rs:90-108 | removes an interest |
| `Connections.TcpConnection.SendBytes` | src/tcp_connection.rs:115-155 | behaves as `Streams.Send` against any answers of the socket: queues behind waiting bytes or interest in writing, and asks the socket first otherwise |
| `Connections.TcpConnection.WriteThrough` | src/tcp_connection.rs:117-145 | the direct writes of a send end as the answers of the socket decide, with the rest buffered |
| `Connections.TcpConnection.HandleWrite` | src/tcp_connection.rs:231-256 | behaves as `Streams.Ready` against any answers of the socket: does nothing without interest in writing, and otherwise ends as `Streams.FlushEnds` says |
| `Connections.TcpConnection.HandleShutdown` | src/tcp_server.rs:292-298 | half-closes exactly without interest in writing, and otherwise changes nothing |
| `Connections.TcpConnection.Perform` | src/tcp_connection.rs:115-256 | any sequence of operations on a connection is a run in the sense of `Streams` |

## Left out

- Sockets, polling and registration: the socket answers by a script, the poll is a latch or a pause.
- `Connections.TcpConnection.HandleWrite`: an exhausted script answers WouldBlock. That any number of failures is retried is `Streams.FailuresAreRetried`; the endless loop on a socket that fails for ever is not modelled.
- 64-bit overflow of times and ticks: both are unbounded, as they would overflow only for a delay of many million years.
- `Timers.Timer.constructor`: the capacity is exactly the rounded argument; the allocator may give more.
- `Dispatching.Dispatcher.WithConnection`: a token below the loop's offset counts as not connected, where a checked build panics on the subtraction.
- `Dispatching.Dispatcher.AddConnection`: what the callbacks of a new connection do, which is user code, and the panic if the shutdown of a refused stream fails. A new loop has room for exactly its limit; the allocator may give more.
- `Dispatching.EventLoop.ProcessTimers`: callbacks are recorded and not run. In the source they get the connection and the poll registry only (src/tcp_server.rs:338-353), and a connection schedules by sending a message (src/tcp_connection.rs:157-160), so a callback cannot add a timer within the round; what it does to its connection is not covered. Clock readings do not decrease.
- Periodic behaviour of `schedule_every`: a round puts a repeating item back without an interval, so it is not repeated again; nothing is claimed beyond that.
- The connecting path with its pending callbacks and registration (src/tcp_server.rs:162-186, src/tcp_server.rs:215-232), which records no interests.
- Shutdown of a whole dispatcher or server (src/tcp_server.rs:100-106, src/tcp_server.rs:362-369).
- Reading from sockets (`read_from`, `handle_read`): appending to a buffer, which is modelled, and user callbacks.
- The string helpers of the buffer: conversions of the standard library.
- A direct call of `shutdown` on a connection (src/tcp_connection.rs:177-180), which half-closes it without looking at the buffer; `Streams.HalfClosedExactly` covers the Shutdown message only.
- Interest in writing that is changed by anyone but `send` and `handle_write`.
- `src/acceptor.rs`, `src/ex`, `src/connector.rs`, `src/service.rs`, `src/channel.rs`, `src/logger.rs`, `src/main.rs` and the examples: plumbing, or not part of the crate. From `src/event_loop_thread_pool.rs` only the numbering of loops is used.
