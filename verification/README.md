# A verified model of the fiber server's core

The server runs many fibers on a few worker threads. Five of its parts carry properties that no single
function body shows, and these are modelled and proved here:

- **The byte array**: a list of equally large nodes with a cached cursor node, on which integers, varints and
  strings are written and read, and whose bytes a socket stream moves through scatter/gather windows.
- **The timer manager**: a set ordered by (deadline, identity) whose keys change, with a flag that suppresses
  repeated wake-ups.
- **The scheduler, fibers, event table and hooked calls**: a protocol of atomic steps in which workers pick
  fibers, fibers register for events and timers, and a hooked call retries until its event or its timeout.
- **Receiving a response body**: a shifting buffer and a parser that starts anew on every read.
- **The Uri parser and printer**: a goto automaton and the text it should invert.

Parts that the source writes as objects and loops are classes and loops here, each proved against functions on
plain values; the laws are then proved about those functions, over all inputs or all runs. Failures that the
source does not guard against (a null cursor, a failed assertion, a string made from a null pointer) are outcomes
of the operations, never preconditions; only what the source demands of its callers is required.

## The files

| file | what it holds |
|---|---|
| Basics | bytes and optional values |
| Blocks, ByteArray | overwriting a flat byte string; the linked list of nodes that refines it |
| Bits, Wire, Zigzag, Codec, TypedBuffer | words as lists of bits; varints, byte orders and zigzag; typed values; reading and writing them |
| Stream | short sends and receives through windows; end-to-end transfer |
| TimerSpec, TimerManager | timers as values and over runs; the ordered set that refines them |
| Jobs, EventSpec, Events | tasks; registrations as a map and over runs; the event table in place |
| Protocol | the machine of atomic steps |
| ProtocolTokens, ProtocolOwners, ProtocolCalls, ProtocolStates, ProtocolWakes, ProtocolWaits | what every step keeps: wake-ups, owners, calls, fiber states, and what a waiting call relies on |
| ProtocolRuns, ProtocolOutcomes | what holds over every run |
| WorkerSpec, Worker | rounds of a task list; one worker's run loop |
| ChunkSpec, ChunkFlow, HttpConnection | size lines; receiving as a function of the bytes and the reads; the receiving loops |
| UriSpec, UriRoundTrip, Uri | the automaton and the printer; parse after print; the parsing loop |

## Where a plain claim is false

Each of these is kept as the source has it, with the exact condition proved.

- Reading zero bytes at the capacity meets a null cursor, so an empty string written last and ending exactly
  there cannot be read back: `ByteArrays.ByteArray.Read`, `TypedBuffer.RoundTrip`.
- The positioned read starts from the cursor, and is right exactly when the cursor's node holds the position:
  `ByteArrays.ByteArray.ReadStartRight`, with a list that reads wrong in `ByteArrays.ReadAtElsewhere`.
- A string as long as its length prefix can count, or longer, is cut or misread: `Codec.TextSurvives`.
- The rollover test subtracts an hour without sign, so any step back within the first hour counts as a rollover:
  `TimerSpec.RolloverMeaning`.
- The dispatch loop stops the program exactly when, of one descriptor, a reported event is registered and
  another reported one is not: `IOManagers.IOManager.Dispatch` with `Stops`.
- Stopping is not stable by itself: a worker that no longer counts a READY fiber, or that holds expired callbacks
  not yet scheduled, still makes work. Exactly then: `ProtocolRuns.LeakExact`, with runs that get to
  either, `ProtocolRuns.LeakReached` and `ProtocolRuns.HandLeakReached`.
- A timeout callback that saw its condition alive but cancels after its call returned hands over whatever is
  registered for the event by then: `ProtocolRuns.LateCancel`.
- A size line split by a read is read right exactly when only leading zeros went with the first part:
  `ChunkSpec.SplitLine`, with "1A" as an example in `ChunkSpec.SplitChangesSize`.
- A colon without a port number loses the mark of the path, which is then used: `UriRoundTrip.ParseWritten`.
- A parked call is forgotten exactly when someone deletes its registration: `ProtocolOutcomes.ParkedExpects` with
  `ProtocolWakes.WakeConserved`.
- A digit right after the first colon of the user info drops all before it: `UriRoundTrip.ParseAfterPrint`, with
  every Uri of the user info "a:1" as an example in `UriRoundTrip.DigitMovesMark`.

## Model

| member | source | states |
|---|---|---|
| ByteArrays.ByteArray.constructor | src/bytearray.cpp:30-39 | a new array has one node, its base size as capacity, and is empty at position 0 |
| ByteArrays.ByteArray.Shape | src/bytearray.cpp:668-697 | capacity is the number of nodes times the base size; the cursor is node position / base size, null exactly at the capacity |
| ByteArrays.ByteArray.AddCapacity | src/bytearray.cpp:668-697 | growth keeps all bytes, moves no position, and adds the fewest nodes that fit the request; a cursor null before points to the first new node |
| ByteArrays.ByteArray.Write | src/bytearray.cpp:363-397 | overwrites exactly the slice from the position with the given bytes, grows by the fewest nodes, raises the size only if passed |
| ByteArrays.ByteArray.Read | src/bytearray.cpp:400-428 | returns exactly the slice from the position and advances; out of range exactly when it is longer than the rest; a null cursor exactly for zero bytes at the capacity |
| ByteArrays.ByteArray.ReadAt | src/bytearray.cpp:431-459 | what the positioned read returns, which starts from the cursor's node |
| ByteArrays.ByteArray.ReadStartRight | src/bytearray.cpp:436-439 | that read starts where it should exactly when the cursor's node holds the position |
| ByteArrays.ReadAtElsewhere | src/bytearray.cpp:431-459 | with the bytes 1 and 2 in nodes of one byte and the position at the second, the positioned read at 0 gives 2 |
| ByteArrays.ByteArray.SetPosition | src/bytearray.cpp:462-479 | moves the cursor to the position's node, raises the size to it; refused beyond the capacity |
| ByteArrays.ByteArray.Clear | src/bytearray.cpp:349-360 | back to one node, size and position 0 |
| ByteArrays.ByteArray.ToString | src/bytearray.cpp:541-549 | the unread bytes, with the position unchanged |
| ByteArrays.ByteArray.GetReadBuffers | src/bytearray.cpp:568-597 | the windows from the cursor for the next min(len, unread) bytes |
| ByteArrays.ByteArray.GatherCursor | src/bytearray.cpp:568-597 | those windows concatenate to exactly these bytes |
| ByteArrays.ByteArray.GetReadBuffersFrom | src/bytearray.cpp:600-634 | the windows of the positioned form, whose length is clamped by the array's own position |
| ByteArrays.ByteArray.GetWriteBuffers | src/bytearray.cpp:637-665 | after growth, windows for exactly len bytes from the position; no other field changes |
| ByteArrays.ByteArray.WindowsDisjoint | src/bytearray.cpp:637-665 | no two windows share a byte |
| ByteArrays.ByteArray.Receive | src/socket_stream.cpp:33-38 | storing bytes through the write windows and setting the position past them is a write of these bytes |
| Blocks.WrittenTwice | src/bytearray.cpp:363-397 | two writes one after the other are one write of both |
| Blocks.BlocksFor | src/bytearray.cpp:678 | the node count of a request is its integer ceiling |
| Zigzag.EncodeIsArithmetic | src/bytearray.cpp:102-116 | shifting left by one and exclusive or with the sign's arithmetic shift, bit by bit, give the numbers of the disabled branch: twice v, or minus twice v less one |
| Zigzag.DecodeIsArithmetic | src/bytearray.cpp:118-130 | shifting right by one and exclusive or with minus the last bit give half of an even word, and minus half of an odd one less one |
| Zigzag.Bijection | src/bytearray.cpp:102-130 | zigzag on bits is a bijection between signed numbers and words, of any width |
| Bits.OrIsSum | src/bytearray.cpp:262-293 | or-ing a group, shifted past the bits set so far, into a word is the sum cut to the word |
| Wire.VarintRoundTrip | src/bytearray.cpp:137-146 | a varint before any bytes decodes to its value and its length |
| Wire.VarintByte | src/bytearray.cpp:137-162 | byte i of a varint holds seven bits of the value, from bit 7 * i on, and the top bit on all but the last |
| Wire.VarintLength | src/bytearray.cpp:137-162 | a varint takes the least k bytes with v below 128 to the k, at least one |
| Wire.VarintBound | src/bytearray.cpp:137-162 | at most 5 bytes for 32 bits and 10 for 64 |
| Wire.VarintPrefixFree | src/bytearray.cpp:137-162 | no varint is a proper prefix of another |
| Wire.SwapTwice | inc/mnser_endian.h:14-39 | swapping the bytes of a word twice gives it back |
| Wire.FixedRoundTrip | src/bytearray.cpp:52-100 | a fixed-width number written and read under the same byte order comes back, on any platform |
| Wire.FixedLayout | src/bytearray.cpp:52-100 | its bytes are in the array's byte order |
| Wire.LowFirstByte | src/bytearray.cpp:52-100 | byte i of a word holds its bits from 8 * i on |
| Wire.FixedByte | src/bytearray.cpp:52-100 | where each byte of a fixed-width number is stored, for every byte order of array, macro and hardware |
| Codec.IntBytes | src/bytearray.cpp:52-100 | the stored bytes of a fixed-width number, in two's complement |
| Codec.VintBytesAre | src/bytearray.cpp:132-162 | the bytes of a varint number, a signed one in zigzag |
| Codec.TextBytes | src/bytearray.cpp:179-205 | the bytes of a string's length, fixed or varint, and its characters behind them |
| Codec.TextSurvives | src/bytearray.cpp:179-205 | a length-prefixed string is parsed back exactly when it is shorter than its prefix can count |
| Codec.Truncated | src/bytearray.cpp:208-346 | reading an encoding that is cut off anywhere ends in the range exception, after a number of bytes that is exact |
| Codec.ParseInverts | src/bytearray.cpp:208-346 | every value within its type is parsed back from its encoding, whatever follows |
| TypedBuffer.WriteFixed | src/bytearray.cpp:52-100 | writes the fixed-width encoding at the position |
| TypedBuffer.WriteVarint | src/bytearray.cpp:137-162 | writes exactly the varint of the value |
| TypedBuffer.WriteText | src/bytearray.cpp:179-205 | writes the length in its prefix's form, then the characters |
| TypedBuffer.ReadFixed | src/bytearray.cpp:208-255 | reads the number its bytes encode, or is out of range without moving |
| TypedBuffer.ReadVarint | src/bytearray.cpp:262-293 | the read loop, which ors each shifted group into the word, returns the decoding of the unread bytes cut to the word, and stops after its last byte or its last group |
| TypedBuffer.ReadText | src/bytearray.cpp:312-346 | reads a length and as many characters; meets a null cursor exactly for an empty string at the capacity |
| TypedBuffer.ReadValue | src/bytearray.cpp:208-346 | every typed read is the parse of the bytes ahead |
| TypedBuffer.RoundTrip | src/bytearray.cpp:179-346 | any list of typed values written and read back comes back with the same end position, except an empty string written last that ends at the capacity |
| Streams.Write | src/socket_stream.cpp:49-60 | what one call on the connection takes of min(length, unread) is sent; the position moves by it, and these are the bytes at the old position |
| Streams.Read | src/socket_stream.cpp:28-40 | what one call on the connection gives of min(length, coming) is written at the position, and the array grew for the whole request |
| Streams.WriteFixSize | src/stream.cpp:46-56 | a successful return has sent exactly the next n bytes; while no call fails it is successful exactly when n bytes are unread |
| Streams.ReadFixSize | src/stream.cpp:19-29 | a successful return has written exactly the next n received bytes; while no call fails it is successful exactly when n bytes are coming |
| Streams.Transfer | src/stream.cpp:5-56 | over any short sends and receives, the same n bytes arrive in order at the receiver's old position; and they do arrive when no call fails and n bytes are unread |
| TimerManagers.TimerManager.Find | src/timer.cpp:11 | the search by key finds every registered timer |
| TimerManagers.TimerManager.Cancel | src/timer.cpp:7-16 | true exactly for a registered timer, which then leaves the set and loses its callback |
| TimerManagers.TimerManager.Refresh | src/timer.cpp:19-35 | a registered timer's deadline becomes now plus its interval, any other keeps its own; the set stays ordered |
| TimerManagers.TimerManager.Reset | src/timer.cpp:38-61 | the early success for an unchanged interval; else the new deadline, and whether the front hook is due |
| TimerManagers.TimerManager.Insert | src/timer.cpp:201-212 | the hook runs exactly when the timer comes before all others and no wake-up is pending, and then the flag is set |
| TimerManagers.TimerManager.Add | src/timer.cpp:104-110 | registers a timer due after its interval |
| TimerManagers.TimerManager.GetNextTimer | src/timer.cpp:127-142 | clears the flag; the time to the least deadline, 0 when it passed, none without timers |
| TimerManagers.TimerManager.DetectClockRollover | src/timer.cpp:190-198 | the unsigned comparison with the previous time, which becomes now |
| TimerSpec.RolloverMeaning | src/timer.cpp:190-198 | it tells a step back by more than an hour, and any step back within the first hour |
| TimerManagers.TimerManager.ListExpired | src/timer.cpp:145-181 | exactly the due timers fire, in key order, with their callbacks; recurring ones are due again after now plus their interval, one-shot ones leave the set, all others stay |
| TimerSpec.SweptTimer | src/timer.cpp:170-179 | a fired recurring timer stays registered, due one interval from now; a fired one-shot timer is not registered; all others are as they were |
| TimerSpec.WaitExact | src/timer.cpp:127-142 | no timer is due before the reported wait is over, and when it is, one is |
| TimerSpec.ResetKeepsStart | src/timer.cpp:38-61 | a reset that is not from now moves the deadline by the difference of the intervals |
| TimerSpec.NeverEarly | src/timer.cpp:145-181 | over any run with a clock that does not go back, a callback is delivered no sooner than one interval after its timer was added, refreshed, reset from now or delivered before, unless it was reset since |
| TimerSpec.RecurringSpaced | src/timer.cpp:170-179 | over any such run, two deliveries of a recurring timer that is not reset between them are at least its interval apart |
| TimerSpec.OnTime | src/timer.cpp:145-181 | over any such run, a sweep delivers a started timer that nothing has touched since exactly when its interval is over |
| TimerSpec.SweepExact | src/timer.cpp:145-198 | over any run, whatever the clock does, a sweep delivers exactly the due timers, or all when the clock went back since the last sweep by more than an hour or from within the first hour |
| TimerSpec.NeverAfterCancel | src/timer.cpp:7-16 | over any run, a callback is never delivered after its cancel returned true |
| TimerSpec.OneShotOnce | src/timer.cpp:170-179 | over any run, a one-shot callback is delivered by at most one sweep |
| TimerSpec.OncePerSweep | src/timer.cpp:170-179 | a sweep delivers no callback twice, and in the order of deadlines |
| TimerSpec.InsertInforms | src/timer.cpp:201-212 | inserting a new minimum sets the flag and runs the hook, or finds both done |
| TimerSpec.NoLostWakeUp | src/timer.cpp:127-212 | over any run with a clock that does not go back, no timer's deadline is below the last one reported, and none is there when none was reported, or a wake-up is pending and the hook ran since |
| EventSpec.ConsumedOnce | src/iomanager.cpp:82-93 | over any run and at every event, the registrations made are, in order, those that ended by one deletion or one hand-over each, then the one still armed |
| EventSpec.HandedIsEnd | src/iomanager.cpp:82-93 | a hand-over gives its scheduler exactly the registered fiber or callback, once; no other call gives any |
| EventSpec.InTable | src/iomanager.cpp:136-145 | over any run, every registered descriptor has a context |
| EventSpec.GrowFits | src/iomanager.cpp:136-145 | growing to one and a half times the descriptor makes room for it and drops none |
| IOManagers.IOManager.ContextResize | src/iomanager.cpp:421-430 | new contexts are empty and numbered; old ones stay |
| IOManagers.IOManager.AddEvent | src/iomanager.cpp:134-188 | aborts exactly on an event already set; unless the kernel refuses, exactly this registration is added; bits, contexts, kernel and count stay in step |
| IOManagers.IOManager.DelEvent | src/iomanager.cpp:191-225 | true exactly for a registered event the kernel lets go; it ends with nothing scheduled |
| IOManagers.IOManager.TriggerEvent | src/iomanager.cpp:82-93 | its scheduler's list gets exactly one entry at the back, the registered fiber or callback for any thread; no other list changes, and the context is empty |
| IOManagers.IOManager.CancelEvent | src/iomanager.cpp:228-259 | as the deletion, but the registration is at the back of its scheduler's list, once, and no other list changes |
| IOManagers.IOManager.CancelAll | src/iomanager.cpp:262-299 | the registrations of both events are at the back of their schedulers' lists, READ first, once each, no other list changes, and none stays registered |
| IOManagers.IOManager.Dispatch | src/iomanager.cpp:360-405 | the registrations of the reported events are at the back of their schedulers' lists, READ first, once each, and no other list changes; the program stops exactly when a reported event is registered and another reported one is not |
| IOManagers.IOManager.Unwatch | src/iomanager.cpp:206-218 | MOD or DEL is always legal: the kernel's mask changes unless it refuses |
| ProtocolTokens.StepSingle | src/iomanager.cpp:82-93 | every step keeps at most one wake-up for each fiber, among queue, picks, events, timers, callbacks in hand, and what awaits requeueing or reuse |
| ProtocolOwners.FreeToRun | src/scheduler.cpp:193-228 | a fiber about to be swapped in is on no worker's hands and not EXEC |
| ProtocolOwners.StepOwned | src/scheduler.cpp:193-260 | every step keeps each fiber on the hands of one worker at most |
| ProtocolOwners.StepCounted | src/scheduler.cpp:213-250 | every step keeps the active count equal to the number of workers between pick and decrement |
| ProtocolRuns.NeverTwice | src/scheduler.cpp:195-240 | in every interleaving with single-wake registration, no fiber is run by two workers at once |
| ProtocolRuns.FiberAssertions | src/fiber.cpp:99-187 | in every run, the fiber's own assertions hold: swapped in when not EXEC, yielding when EXEC, reset when INIT, TERM or EXCEPT |
| ProtocolStates.StepHoused | src/scheduler.cpp:225-240 | every step keeps that a fiber is EXEC only while a worker has it on its hands: one that parked is put on hold |
| ProtocolStates.StepLined | src/scheduler.cpp:229-235 | every step keeps that a fiber in READY is queued, picked or about to be requeued |
| ProtocolOutcomes.NeverStuck | src/scheduler.cpp:193-228 | in every run, a queued entry whose fiber is on no worker's hands can be picked, or one before it, by any worker at the top of its loop that the entry is for |
| ProtocolOutcomes.YieldComesBack | src/scheduler.cpp:229-235 | in every run, a fiber that yielded READY is in line to run at all times until it is swapped in again |
| ProtocolWakes.WakeConserved | src/scheduler.cpp:193-260 | a step takes a fiber's last wake-up away exactly when it starts the fiber, finds it ended, or deletes the registration or the timer |
| ProtocolWakes.WakeSetUp | src/iomanager.cpp:134-188 | scheduling a fiber, registering it, a timer that wakes it, a hooked call's registration, yielding READY and ending after a function each set a wake-up up |
| ProtocolOutcomes.WakeNeverLost | src/iomanager.cpp:82-93 | in every run, a wake-up that was set up stays somewhere until such a step |
| ProtocolOutcomes.NextOnThread | src/scheduler.cpp:195-203 | in every run, a fiber scheduled for a thread is next taken up by that thread |
| ProtocolOutcomes.QuitsAfterStopping | src/iomanager.cpp:326-333 | in every run, a worker's idle fiber is over exactly when it left idling while stopping held, and the worker quits only after that |
| ProtocolOutcomes.QuitIsForever | src/scheduler.cpp:267-270 | in every run, a worker that quit takes no further step |
| ProtocolOutcomes.EndsAs | src/fiber.cpp:196-238 | in every run, a fiber is in EXCEPT only after an exception ended it, and in TERM only after it returned |
| ProtocolCalls.StepCalls | src/hook.cpp:110-158 | every step keeps a call's timer in the set only between its creation and its cancellation, and its event armed only while it waits |
| ProtocolRuns.ReturnedClean | src/hook.cpp:108-158 | when a hooked call has returned, on any path and after any number of rounds, none of its timers is in the set and none of its registrations armed |
| ProtocolWaits.StepTimeouts | src/hook.cpp:113-132 | every step keeps that the timeout of a waiting call is in the timer set, on its way, or has set the condition |
| ProtocolOutcomes.TimeoutNeverLost | src/hook.cpp:113-132 | so in every run |
| ProtocolOutcomes.ParkedExpects | src/hook.cpp:133-147 | in every run, a call that waits has its event registered, or its fiber is queued, picked or running again, unless the registration was deleted while it waited |
| ProtocolOutcomes.DecideExact | src/hook.cpp:148-152 | in every run, a woken call returns exactly when a timeout callback set out to cancel it before; otherwise it tries again |
| ProtocolOutcomes.ReturnsExact | src/hook.cpp:97-158 | in every run, a hooked call returns by its result, by a rejected event, or on being woken after its timeout, and in no other way |
| ProtocolRuns.ReturnedForever | src/hook.cpp:124-131 | in every run, a returned call stays as it is, and a fiber that is to cancel for it already was when it returned |
| ProtocolRuns.LateTimeout | src/hook.cpp:124-131 | in every run, each timeout callback that looks at its condition at any time after its call returned leaves queue, registrations, timers, calls and workers as they are |
| ProtocolRuns.LateCancel | src/hook.cpp:124-131 | one that was past its check changes something exactly when the event is registered by then, and then hands over a registration that is not its call's |
| ProtocolRuns.QuietForever | src/iomanager.cpp:433-444 | once stopping holds and no worker leaks, no step from inside ever makes a queue entry, an event or a timer |
| ProtocolRuns.LeakExact | src/iomanager.cpp:433-444 | where stopping holds, a step from inside can undo it exactly when a worker has a READY fiber to requeue or callbacks in hand |
| ProtocolRuns.LeakReached | src/scheduler.cpp:229-235 | such a state is reached by a run of one fiber on one worker |
| ProtocolRuns.HandLeakReached | src/iomanager.cpp:350-358 | and, with a callback in hand, by a run of one timer on one worker |
| Workers.Scheduler.ScheduleNoLock | inc/scheduler.h:132-140 | appends an entry with something to run; tells whether the list was empty |
| Workers.Scheduler.Pick | src/scheduler.cpp:193-218 | takes the first entry that is for this thread or any and whose fiber is not EXEC; tells when others are to be notified |
| Workers.Scheduler.RunFiber | src/scheduler.cpp:225-240 | one turn of a fiber: queued again when READY, on hold when it parked, left when it ended |
| Workers.Scheduler.RunFunc | src/scheduler.cpp:241-260 | one turn of a function in the kept fiber or a new one, which is kept again exactly when it ended |
| Workers.Scheduler.Drain | src/scheduler.cpp:189-279 | the run loop empties the list in rounds, every fiber ends as its code says: TERM when it returns, EXCEPT when it throws, HOLD when it parks; the active count is as before |
| Workers.Fiber.Reset | src/fiber.cpp:99-115 | only for a fiber in INIT, TERM or EXCEPT |
| WorkerSpec.RoundRobin | src/scheduler.cpp:189-240 | requeueing at the back runs the tasks in rounds, always in the same order |
| WorkerSpec.NextTurn | src/scheduler.cpp:189-240 | each queued task has its next turn after one turn of each task before it |
| WorkerSpec.RunsToEnd | src/scheduler.cpp:189-240 | every task has exactly one turn more than it yields |
| HttpConnections.Scan | src/http/httpclient_parser_rl.cpp:122-294 | states 1, 2, 3 and 120 give the verdict of the size line's grammar and the bytes parsed |
| HttpConnections.Execute | src/http/http_parser.cpp:254-262 | parses from the first state and shifts what is left to the front |
| HttpConnections.ReadSize | src/http/http_connection.cpp:65-88 | the inner loop gives what `Sized` makes of the held and the coming bytes and of what its reads returned; it ends failed exactly when a read did, which it does not while the connection supplies what is coming |
| HttpConnections.ReadPayload | src/http/http_connection.cpp:94-112 | the same for the payload and the two bytes after it, from the buffer or over reads |
| HttpConnections.RecvChunked | src/http/http_connection.cpp:61-113 | the same for the whole body; a line in error and a failed read close the connection and give a null pointer |
| HttpConnections.RecvEncoded | src/http/http_connection.cpp:61-113 | for every list of chunks: if neither the buffer nor a read ends inside a size line past its leading zeros, the body is the payloads' concatenation and the rest is untouched exactly when no read failed; none fails while the connection supplies what is coming, or when the buffer holds all |
| HttpConnections.RecvLength | src/http/http_connection.cpp:114-135 | the body is the announced number of bytes, first from the buffer; null exactly when a read failed, which happens, while the connection supplies what is coming, exactly when the bytes are fewer |
| ChunkFlow.SizedInverts | src/http/http_connection.cpp:65-88 | over every split of the reads that does no harm to it, the size of an encoded chunk's line is found and what follows is left; or a read failed before the line's end |
| ChunkFlow.LoadedInverts | src/http/http_connection.cpp:94-112 | over every split of the reads, an encoded chunk's payload is appended and what follows its line end is left; or a read failed before |
| ChunkFlow.ReceivedInverts | src/http/http_connection.cpp:61-113 | receiving inverts encoding: over every split of the reads that does no harm to a size line, the payloads' concatenation, and not one byte after the last line end; or a read failed before |
| ChunkFlow.WrongLine | src/http/http_connection.cpp:76-79 | a size line in error ends receiving at once, with no further read |
| ChunkSpec.RefusedExact | src/http/httpclient_parser_rl.cpp:122-294 | exactly the lines are refused whose first byte is neither a digit nor 'H', whose digits are followed by another byte than a line end or a semicolon, or whose CR is not followed by LF |
| ChunkSpec.SizeExact | src/http/httpclient_parser_rl.cpp:122-294 | exactly the buffers that begin with a whole size line give a size, its value |
| ChunkSpec.ParseWhole | src/http/httpclient_parser_rl.cpp:122-294 | a whole size line gives its value, whatever follows |
| ChunkSpec.SplitLine | src/http/http_parser.cpp:255-257 | a line of which the first bytes were lost gives its value exactly when these are leading zeros and a digit is left |
| ChunkSpec.SplitChangesSize | src/http/http_parser.cpp:255-257 | "1A" split after its first digit gives ten |
| Uris.Create | src/uri_rl.cpp:20-10871 | the loop over the text gives the automaton's result and fields |
| Uris.Uri.Perform | src/uri_rl.cpp:96-253 | each action sets its field to the text since the mark and moves or drops the mark |
| UriSpec.AtoiDecimal | src/uri_rl.cpp:10915 | the printed port is read back |
| UriRoundTrip.LoopText | src/uri_rl.cpp:5561-5610 | in the loops of names, passwords, paths, queries and fragments, a text of the class is read to its end |
| UriRoundTrip.PasswordRun | src/uri_rl.cpp:5871-5973 | what follows the colon of the user info: a digit moves the mark there |
| UriRoundTrip.PortEnd | src/uri_rl.cpp:5550-5660 | a port is read with what follows it |
| UriRoundTrip.ParseWritten | src/uri_rl.cpp:20-10871 | every text of a well-formed Uri, with or without user info, host, port, path, query and fragment, and with the marks of empty ones or without, is accepted with these very fields; a colon without a number uses a null mark |
| UriRoundTrip.ParseNoPath | src/uri_rl.cpp:10803-10853 | without a path, host, port, query and fragment are as written and the path is empty |
| UriRoundTrip.AcceptedIsClean | src/uri_rl.cpp:20-10871 | no accepted text holds a control character, a space, a quote, a bracket or a percent sign without two hexadecimal digits |
| UriRoundTrip.ParsePrinted | src/uri_rl.cpp:10910-10922 | parsing a printed Uri succeeds with these very fields |
| UriRoundTrip.ParseAfterPrint | src/uri_rl.cpp:10877-10922 | scheme, host, port, path, query and fragment come back, default ports and empty paths normalised; the user info exactly when no digit follows its first colon |
| UriRoundTrip.DigitMovesMark | src/uri_rl.cpp:9456-9459 | of the user info "a:1" only "1" comes back |

## Left out

- Buffer lengths, deadlines and counts are unbounded; sums that overflow 64 bits, or lengths of 2 to the 31 and more, are not modelled. Chunk sizes above 2 to the 31 less 3 lead to the outcome `Unknown`, and ports above an int to `Undefined`.
- ByteArrays: file input and output, float and double copies and the hexadecimal dump; freeing nodes; the content of new, not yet written bytes; a receive into zero windows.
- ByteArrays.ByteArray.CopyIn: the source's copying loop moves the cursor and the position in the fields at every turn; here they are set once, after the loop.
- TimerManagers: timers with an empty callback, null timers in the comparator, and the shared and unique forms of the lock. Operations are atomic; the read of the interval before the lock in `reset` is part of it.
- Blocks.BlocksFor: the source divides doubles, which is exact below 2 to the 53 bytes; the rounding from there on is not modelled.
- IOManagers: event bits are a pair of booleans; the edge-trigger flag, which every call sets, is not shown. Schedulers are known by their identity, and all task lists are one field. Finding and growing the context table is one step. The kernel may refuse any call, and refuses every illegal one. A context starts with no event set; the source leaves it uninitialised.
- Protocol: the retry loop of a hooked call and the loops of several workers are steps of one machine, not methods, since they interleave; `Workers` has the run loop of one worker as a method. Steps are atomic at the granularity of the locks. The condition of a timeout is checked and set in one step; stopping reads its three parts at once; the pending count is the number of registrations; a timer's deadline is not part of the machine, so any registered timer may expire. Code that runs in a fiber is arbitrary but for single-wake registration: a wake-up of a fiber is set up only when it has none, and a fiber that yields READY, or ends after running for a function, has none.
- Protocol: no liveness. A timeout callback that comes before its call registered finds no event to cancel, so a parked call need not be woken by its timeout.
- Protocol: threads, stacks and context switches; tickling and the time epoll waits; the scheduler of the calling thread; `switchTo` is a schedule of the running fiber followed by a yield.
- Workers: other threads and the idle fiber; a task that schedules further tasks. The queue's handles are not counted.
- HttpConnections: the status line and headers, chunk extensions and content encodings; a first character 'H' and a semicolon after a size lead to the outcome `Unknown`. The two bytes after a payload are not looked at, as in the source. The test for a full buffer after a parse is not shown, because at least one byte is always parsed (`ParseHeld`).
- Uris.Create: the states for address literals, relative references and paths without authority lead to the outcome `Unmodelled`. An empty port before a query or fragment makes a string from a null mark; that is the outcome `Undefined`. `createAddress` needs name resolution.
- The rest of the hooks, sockets, descriptors, servers, logs, configuration and servlets only wrap system calls or format text.
