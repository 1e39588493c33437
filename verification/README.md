# A verified model of sylar's core

This project models, in Dafny, the parts of the sylar C++ framework whose correctness is hardest to
see from the code, and proves what they are for:

- **ByteArray** (`Chunks`, `Buffer`, `Endian`, `Varint`, `Codec`, `Wire`, `Script`, `SocketStream`): the
  linked list of fixed-size nodes with a moving cursor behaves as one flat byte sequence; the wire
  codecs and whole scripts of typed values round-trip; scatter/gather transfers equal plain reads and
  writes.
- **Scheduler, fibers and hooks** (`Scheduler`, `Exclusion`, `KeptFiber`, `Accounting`, `Flow`,
  `Fibers`, `WakeUps`, `Stopping`, `Hooks`, `HookPrograms`): a transition system over any number of workers and fibers whose steps are the
  separate critical sections and state changes of the worker loop, the two halves of timer expiry and
  the callbacks that wake fibers. No fiber is executed twice, no task is lost, the counters are exact,
  and stopping is stable under an exact condition. The hooked functions are programs of their fibers
  whose steps keep to the protocol that this rests on.
- **IOManager** (`Events`, `EventLaws`, `EventObject`, `EventTasks`): event registration and dispatch with the
  kernel's interest list, over every order of the operations, and the same operations as steps of the
  scheduler.
- **TimerManager** (`Timers`, `TimerLaws`, `TimerRuns`, `TimerFires`,
  `TimerObject`): the ordered timer set, with the clock as
  an input.
- **HttpConnectionPool** (`Pool`, `PoolLimit`): idle and lent connections under overlapping callers.
- **LogFormatter::init** (`Pattern`, `PatternLaws`): the pattern parser against a printer of patterns.
- **IP addresses** (`Bits`, `Prefix`, `Prefix4`, `AddressText`): prefix arithmetic and IPv6 text.

Code that changes things step by step is modelled by classes and methods (`ByteArray`,
`TimerManager`, `IOManager`, `HttpConnectionPool`, the parser, scan, copy and printing loops); each
method is proved against a function of the old state, and the laws are lemmas about those functions
and about whole sequences of them. Words are natural numbers with explicit widths; `Bits` defines the
bit operators on them. Clocks, the kernel's answers, the sockets' state and the bytes a socket
delivers are parameters.

Check everything with `dafny verify dfyconfig.toml`.

## Properties that do not hold as stated

These are kept as the code has them. Each has a lemma at a failing input and the exact condition under
which the property holds.

- A script whose last value is an empty string and whose bytes end exactly at the end of the memory
  cannot be read back: the read follows a null cursor (`Script.RoundTrip`,
  `Script.EmptyTextAtTheEnd`).
- `readForPeekAt` is guarded by the bytes left at the cursor, not at its own position argument
  (`Buffer.PeekAtIsGuardedByTheCursor`, `Buffer.PeekPastTheBytesInUse`).
- A string longer than its length prefix can hold loses its length (`Codec.TextRoundTrip`,
  `Codec.LongTextIsLost`).
- Mutual exclusion of fibers is kept, by every step and over every run, exactly when no step enters a
  fiber that another worker serves, has picked, or keeps for its next callback, or that its own worker
  keeps (`Exclusion.StepKeeps`, `Exclusion.ExclusionExactly`). Two outstanding wake-ups of one fiber can
  break it (`Exclusion.TwoWakeUpsBreakIt`), and so can a single one, when the fiber is one that a worker
  has kept after a callback that registered its own fiber and ended (`KeptFiber.KeptFiberBreaksIt`).
- A fiber scheduled for one worker does not stay with it: the binding is the queue entry's, and a fiber
  that yields READY, or is woken by an event, is queued for any worker. A bound task is picked and
  started by its worker only (`Fibers.BoundTasksStayHome`, `Fibers.BindingIsLost`, `Flow.StepFlows`).
- Stopping is not stable while a worker has given up its active count for a READY fiber that it has
  not queued yet, nor while an idle worker has taken the callbacks of expired timers and not queued
  them yet (`Stopping.StoppingIsStable`, `Stopping.ReadyWindow`, `Stopping.ExpiryWindow`).
- Dispatch aborts when an event that is registered is reported together with one that is not, as a
  hang-up always is for a descriptor waited on in one direction (`Events.DispatchKeeps`,
  `Events.HangUpAborts`); closing a descriptor that still has events makes its number unusable
  (`Events.CloseKeeps`, `Events.ClosedTooEarly`); and an event registered from a thread without a
  scheduler cannot be triggered (`Events.AddKeeps`, `Events.NoSchedulerAborts`).
- Neither refresh nor the re-arming of recurring timers notifies, so each loses a wake-up exactly when
  it sets a deadline before the reported one while the flag is clear (`TimerRuns.WakesExactly`). A
  clock that runs backwards does that (`TimerRuns.RefreshLosesAWakeUp`,
  `TimerRuns.RolloverLosesAWakeUp`), and so does a clock that never runs backwards, when an expiry's
  reading, taken before it got the lock, is more than an hour older than that of another expiry
  (`TimerRuns.StaleReadingLosesAWakeUp`).
- In the first hour of the clock every step back counts as a rollover, because the unsigned difference
  wraps, and hands out timers before their deadline (`TimerLaws.RolloverExactly`,
  `TimerLaws.EarlyClockRollsOver`).
- The pool can exceed its limit exactly when some passing check leaves no room for the callers admitted
  before (`PoolLimit.LimitExactly`, `PoolLimit.OverlapExceeds`); the excess is below the number of
  callers that are at once between the limit check and the increment (`Pool.Limit`).
- `%%` is not an escape in patterns: a percent sign is literal only directly in front of a
  placeholder (`Pattern.RoundTrip`, `Pattern.DoubledPercent`).

## Model

| member | source | states |
|---|---|---|
| `Endian.WireBytesAreHostIndependent` | include/sylar/endian.hh:16-47 | the bytes written for a word depend on the wire order only, not on the host |
| `Endian.FixedRoundTrip` | src/bytearray.cc:54-110 | writing a word and reading it back gives the word, for either order and either host |
| `Endian.DecodedWordIsHostIndependent` | src/bytearray.cc:212-264 | the word read from given bytes depends on the wire order only, and fits its width |
| `Endian.ReverseReverse` | include/sylar/endian.hh:16-47 | swapping bytes twice changes nothing |
| `Varint.EncodeLoop` | src/bytearray.cc:133-167 | the loop computes the base-128 encoding and never leaves its scratch array of 5 or 10 bytes |
| `Varint.EncodeLength` | src/bytearray.cc:133-167 | a value takes at most k bytes if and only if it is below 2^(7k) |
| `Varint.EncodeFitsScratch` | src/bytearray.cc:133-167 | 32-bit values take at most 5 bytes, 64-bit values at most 10 |
| `Varint.DecodeOfEncode` | src/bytearray.cc:266-303 | the decoder returns the value and uses exactly the encoder's bytes, whatever follows |
| `Varint.DecodeMeans` | src/bytearray.cc:266-303 | on any bytes, canonical or not: the decoder stops after the first byte with its top bit clear or when the word is full, the value is what the groups of seven bits spell modulo the word, and it wants more bytes exactly when all continue and do not fill the word |
| `Varint.EncodeIsMinimal` | src/bytearray.cc:133-167 | no byte string that decodes to a value is shorter than its encoding |
| `Varint.ZigzagValue` | src/bytearray.cc:112-118 | the shift-and-xor encoding is the zigzag number 2v or -2v-1, and fits the word |
| `Varint.UnzigzagValue` | src/bytearray.cc:120-126 | the decoding expression gives v/2 or -(v+1)/2 as a signed word |
| `Varint.ZigzagBijection` | src/bytearray.cc:112-126 | encoding and decoding are inverse in both directions on whole words |
| `Varint.SignedLength` | src/bytearray.cc:128-131 | a signed value takes at most k bytes if and only if it is in [-2^(7k-1), 2^(7k-1)) |
| `Varint.TwosComplement` | src/bytearray.cc:54-110 | the unsigned reading of a signed value is the value itself, or the value plus 2^w when it is negative |
| `Chunks.Growth` | src/bytearray.cc:716-730 | the computed number of new nodes brings the capacity to the needed end rounded up to whole nodes |
| `Chunks.BlockSplice` | src/bytearray.cc:361-399 | overwriting inside one node overwrites the flat memory at that place |
| `Chunks.SpliceSplice` | src/bytearray.cc:361-399 | two writes in a row are one write of both |
| `Chunks.SpliceAt` | src/bytearray.cc:361-399 | byte by byte, an overwrite has the new bytes in their place and the old ones elsewhere |
| `Buffer.StoreAndStep` | src/bytearray.cc:372-398 | one turn of the write loop overwrites the flat memory and leaves the cursor on the right node |
| `Buffer.CopyIn` | src/bytearray.cc:361-399 | the whole copy loop is one overwrite of the flat memory; the cursor ends on the node of the new position |
| `Buffer.CopyFrom` | src/bytearray.cc:400-428 | the copy loop yields the flat memory's bytes exactly when they exist, and the node it ends on |
| `Buffer.Seek` | src/bytearray.cc:493-515 | the walk from the root ends on the node of the position, or on null at the very end |
| `Buffer.Walk` | src/bytearray.cc:464-471 | the walk to a given position ends on its node and offset, or on null past the memory |
| `Buffer.PeekAtIsGuardedByTheCursor` | src/bytearray.cc:455-490 | readForPeekAt yields the bytes in use at its argument, or refuses, exactly when its guard on the cursor agrees with the guard on the argument and the copy does not start at the very end |
| `Buffer.PeekPastTheBytesInUse` | src/bytearray.cc:455-490 | a peek past the bytes in use that the guard lets through |
| `Buffer.Windows` | src/bytearray.cc:605-634 | the window loop yields the windows that tile the requested bytes |
| `Buffer.GatherWindows` | src/bytearray.cc:605-671 | the concatenated windows are the flat memory's bytes |
| `Buffer.Scatter` | src/bytearray.cc:673-704 | filling the windows in order overwrites the flat memory |
| `Buffer.ByteArray.constructor` | src/bytearray.cc:33-42 | a new buffer is valid, empty and has one node |
| `Buffer.ByteArray.Clear` | src/bytearray.cc:348-360 | clearing leaves an empty valid buffer of the first node |
| `Buffer.ByteArray.LastNode` | src/bytearray.cc:731-735 | the walk ends on the last node |
| `Buffer.ByteArray.AppendNodes` | src/bytearray.cc:736-744 | the list is extended by exactly the given number of fresh nodes, and the first of them is reported |
| `Buffer.ByteArray.AddCapacityIfNeeded` | src/bytearray.cc:716-749 | room for the request, old memory a prefix of the new, capacity rounded up to whole nodes, a null cursor moved to the first new node |
| `Buffer.ByteArray.Write` | src/bytearray.cc:361-399 | contents are the old ones overwritten at the cursor, the cursor is past the data, the invariant holds |
| `Buffer.ByteArray.Read` | src/bytearray.cc:400-428 | the bytes at the cursor, out of range, or a null cursor; the cursor moves past what was read |
| `Buffer.ByteArray.ReadForPeek` | src/bytearray.cc:430-453 | the same result and no change |
| `Buffer.ByteArray.ReadForPeekAt` | src/bytearray.cc:455-490 | the result at the given position, and no change |
| `Buffer.ByteArray.SetPosition` | src/bytearray.cc:493-515 | seeks, extends the size when past it, refuses past the capacity; memory unchanged |
| `Buffer.ByteArray.GetReadBuffers` | src/bytearray.cc:605-634 | the windows hold exactly what a read of as many bytes would return |
| `Buffer.ByteArray.GetReadBuffersAt` | src/bytearray.cc:636-671 | the same at a given position |
| `Buffer.ByteArray.GetWriteBuffers` | src/bytearray.cc:673-704 | room is made and the windows tile the bytes after the cursor; contents unchanged |
| `SocketStream.ReadInto` | src/sockstream.cc:27-39 | filling n bytes of the windows and setting the position has the effect of writing those n bytes |
| `SocketStream.WriteFrom` | src/sockstream.cc:49-61 | what goes on the wire and the new cursor are those of a read of as many bytes |
| `Codec.LengthRoundTrip` | src/bytearray.cc:183-210 | a length prefix reads back as the length modulo its width |
| `Codec.NumRoundTrip` | src/bytearray.cc:54-181 | every number of every kind reads back, whatever follows |
| `Codec.TextRoundTrip` | src/bytearray.cc:183-210 | a string reads back if and only if its length fits its prefix |
| `Codec.LongTextIsLost` | src/bytearray.cc:183-187 | a string of 65536 bytes with a two-byte length is read back empty |
| `Codec.ItemRoundTrip` | src/bytearray.cc:54-346 | decoding what was encoded gives the item and uses exactly its bytes |
| `Wire.EncodeSpells` | src/bytearray.cc:54-210 | every encoding is the wire format, on either host: a fixed-width number is n bytes, byte k from the low end (or, big-endian, from the high end) the k-th digit in base 256 of its two's complement; a varint is the fewest groups of seven bits, lowest first; a string follows its length in two, four or eight bytes or as a varint |
| `Wire.EncodeAllSpells` | src/bytearray.cc:54-210 | a script is the spellings of its values one after the other |
| `Wire.SpellingIsUnique` | src/bytearray.cc:54-210 | a value has one spelling, so the bytes are determined by the values and the chosen order |
| `Wire.Ranges` | src/bytearray.cc:54-181 | the values of each kind are those of its C++ type |
| `Wire.FixedReadsWhatIsSpelled` | src/bytearray.cc:212-264 | a fixed-width read takes its width and yields the value of its type that the bytes spell, or wants more exactly when there are fewer |
| `Wire.TextReadsWhatIsSpelled` | src/bytearray.cc:321-341 | a string read with a fixed-width length takes what spells the string, and wants more exactly when either part is cut short |
| `Script.NumberBytes` | src/bytearray.cc:54-181 | the bytes each number writer hands to write are the item's encoding and spell it in the wire format |
| `Script.WriteNumber` | src/bytearray.cc:54-181 | what stands in the buffer between the old and the new cursor spells the number |
| `Script.WriteText` | src/bytearray.cc:183-210 | prefix and bytes are written at the cursor as one write, and what stands there spells the string |
| `Script.WriteAll` | src/bytearray.cc:54-210 | a whole script of typed writes is one write of the concatenated encodings, and what stands there spells its values in order |
| `Script.ReadVarint` | src/bytearray.cc:266-303 | the byte-by-byte loop computes the decoder's result on the bytes ahead |
| `Script.ReadText` | src/bytearray.cc:321-346 | prefix and string are read as the decoder says, with the null-cursor outcome of an empty string at the end |
| `Script.ReadItem` | src/bytearray.cc:212-346 | a typed read gives the decoder's result on the bytes ahead and moves the cursor by what it used |
| `Script.ReadAll` | src/bytearray.cc:212-346 | the matching reads return the items in order and end at the same position |
| `Script.RoundTrip` | src/bytearray.cc:54-346 | any script of typed writes, a seek back and the matching reads return the same values in order and end at the same position, for every node size, wire order and host; the one failing case is stated as an if-and-only-if |
| `Script.EmptyTextAtTheEnd` | src/bytearray.cc:400-428 | an empty string that ends at the end of the memory is not read back |
| `Timers.FindMeets` | src/timer.cc:6-29 | in a sorted set, find meets exactly the element it looks for |
| `Timers.InsertSorted` | src/timer.cc:105-119 | insertion keeps the set sorted |
| `Timers.CancelKeeps` | src/timer.cc:40-52 | the unchecked erase of cancel is always valid; exactly this timer leaves the set and loses its callback |
| `Timers.RefreshKeeps` | src/timer.cc:54-71 | refresh finds a timer exactly when it is in the set, and keeps the set sorted |
| `Timers.ResetKeeps` | src/timer.cc:73-103 | reset finds a timer exactly when it is in the set, and keeps the set sorted |
| `Timers.AddKeeps` | src/timer.cc:137-145 | a new timer is added to a set that stays sorted |
| `Timers.ExpireKeeps` | src/timer.cc:188-239 | expiry keeps the invariant and says what becomes of each timer |
| `Timers.DueIsExact` | src/timer.cc:212-220 | the prefix that is cut off holds exactly the timers whose deadline has come |
| `Timers.ExpiryIsExact` | src/timer.cc:188-239 | handed out are precisely the timers due (all of them on rollover), in order of deadline; afterwards the rest is later than now, except re-inserted zero-interval timers |
| `Timers.ExpiryOnFields` | src/timer.cc:188-239 | timers not handed out are as they were; a recurring one handed out is due an interval after the reading and stays; a one-shot leaves the set without its callback; the reading is remembered unless there is no timer |
| `TimerLaws.CancelUndoesAdd` | src/timer.cc:40-145 | cancel undoes addTimer: the set is exactly what it was and no other timer was touched |
| `TimerLaws.RefreshMoves` | src/timer.cc:54-71 | refresh sets one deadline to now plus the interval, keeps the elements of the set and never notifies |
| `TimerLaws.ResetMoves` | src/timer.cc:73-103 | reset gives the new interval and the deadline counted from now or from the old start, and keeps the elements of the set |
| `TimerLaws.ResetUndoesReset` | src/timer.cc:73-103 | a reset that does not restart is undone by a reset to the first interval: same deadlines, same order |
| `TimerLaws.SortedUnique` | src/timer.cc:6-29 | the comparator puts given timers in one order only |
| `TimerLaws.SetOrder` | src/timer.cc:6-29 | the set is in order of deadline, and of address where deadlines are equal |
| `TimerLaws.AddStores` | src/timer.cc:30-38 | a new timer has the given kind, interval and callback and the deadline created + ms in 64 bits; the other timers are untouched |
| `TimerLaws.AddNotifies` | src/timer.cc:105-119 | addTimer raises the flag exactly when the new timer comes before every other one |
| `TimerLaws.ResetNotifies` | src/timer.cc:73-119 | so does a reset that changes anything, with the new deadline |
| `TimerLaws.RolloverExactly` | src/timer.cc:121-131 | a reading is a rollover exactly when it is earlier than the previous one and more than 3600000 ms earlier, or the previous one is below 3600000 |
| `TimerLaws.TrustedReading` | src/timer.cc:121-131 | a reading at most an hour behind the previous one hands out nothing before its deadline, once the clock has shown an hour |
| `TimerLaws.EarlyClockRollsOver` | src/timer.cc:121-131 | in the first hour a step back of one millisecond hands out a timer early |
| `TimerRuns.RunKeeps` | src/timer.cc:40-145 | over every sequence of operations a timer has its callback exactly while it is in the set, and cancel's erase is valid |
| `TimerRuns.OneShotAtMostOnce` | src/timer.cc:222-238 | over every sequence a one-shot timer is handed out at most once |
| `TimerRuns.DisarmedForGood` | src/timer.cc:40-52 | a disarmed timer is never handed out again |
| `TimerFires.FiresWhenDue` | src/timer.cc:30-239 | over every run: a timer that was added and neither cancelled nor moved since is handed out by the first expiry whose reading reaches created + ms, with the callback it was added with; then a one-shot is out of the set and a recurring one due an interval later |
| `TimerFires.FiresOnce` | src/timer.cc:222-238 | and a one-shot is handed out that once only, whatever follows |
| `TimerFires.AddedOneShotAtMostOnce` | src/timer.cc:222-238 | a timer added as a one-shot is handed out at most once in every run from its adding on |
| `TimerRuns.CancelDisarms` | src/timer.cc:40-52 | cancel disarms |
| `TimerRuns.WakesExactly` | src/timer.cc:54-239 | under any clock, after every operation either the wake-up flag is set or no deadline is earlier than the one last reported by getNextTimer, if and only if the operation is not a refresh or a re-arming expiry that sets a deadline before the reported one while the flag is clear |
| `TimerRuns.WakeUpsExactly` | src/timer.cc:54-239 | the same over whole runs, as an if-and-only-if for every run |
| `TimerRuns.NoLostWakeUp` | src/timer.cc:54-186 | no run loses a wake-up when the clock does not run backwards, no expiry's reading is more than an hour older than that of an earlier expiry, and no deadline overflows |
| `TimerRuns.FrontIsLeast` | src/timer.cc:168-186 | the reported deadline is the least in the set |
| `TimerRuns.StartIsAwake` | src/timer.cc:133-133 | the promise holds of the empty timer set |
| `TimerRuns.StartIsFrugal` | src/timer.cc:133-133 | the condition of the at-most-once law holds of the empty timer set |
| `TimerRuns.RefreshLosesAWakeUp` | src/timer.cc:54-71 | a run from an empty set in which the clock goes back by one millisecond and a refresh loses a wake-up |
| `TimerRuns.RolloverLosesAWakeUp` | src/timer.cc:121-131 | a run in which a rollover loses a wake-up |
| `TimerRuns.StaleReadingLosesAWakeUp` | src/timer.cc:188-239 | a run with a clock that never goes back in which a stale reading loses a wake-up |
| `TimerObject.TimerManager.CancelTimer` | src/timer.cc:40-52 | does to the set what the function says, and keeps the invariant |
| `TimerObject.TimerManager.RefreshTimer` | src/timer.cc:54-71 | the same for refresh |
| `TimerObject.TimerManager.ResetTimer` | src/timer.cc:73-103 | the same for reset, with the wake-up flag |
| `TimerObject.TimerManager.AddTimer` | src/timer.cc:105-145 | the new timer has the given kind, interval, callback and deadline, the others are untouched, and the event loop is notified exactly when the flag was clear and the new timer comes before every other one |
| `TimerObject.TimerManager.GetNextTimer` | src/timer.cc:168-186 | the delay is zero exactly when some timer is due; else now plus the delay is the least deadline in the set, the one that counts as reported; all ones without a timer; the flag is cleared |
| `TimerObject.TimerManager.ExpiredEnd` | src/timer.cc:212-221 | wherever the probe timer's address falls in the order, the cut is at the first timer not yet due |
| `TimerObject.TimerManager.ExpiredCount` | src/timer.cc:121-131 | the number of timers to hand out: all of them when the clock went back by more than an hour, else those due; the time is remembered |
| `TimerObject.TimerManager.ListExpiredCb` | src/timer.cc:188-239 | the callbacks handed out are those of the expired timers in order; the new state is that of the function |
| `TimerObject.TimerManager.RearmLoop` | src/timer.cc:226-238 | the in-place loop over the expired timers computes the re-armed set |
| `Scheduler.ScanQueue` | src/scheduler.cc:166-195 | the scan stops at the first task that is for this worker or for any and whose fiber is not executing; every task before it is bound to another worker or is a fiber that executes; it reports whether it passed one bound elsewhere |
| `Scheduler.PickIsUnique` | src/scheduler.cc:166-195 | there is one such index |
| `Scheduler.ScanMayPick` | src/scheduler.cc:166-195 | what the scan finds in one instant is among what it may find when the fibers' states change while it reads them |
| `Scheduler.PicksExactly` | src/scheduler.cc:166-195 | what a worker may take, as an if-and-only-if on the entries: one for it or for any, whose fiber is not executing, with no callback that it may run passed over |
| `Exclusion.StartKeeps` | src/scheduler.cc:205-208 | entering a picked fiber that nobody else has keeps every fiber with one worker |
| `Exclusion.DecideKeeps` | src/scheduler.cc:209-221 | the decision after a swap keeps each fiber in at most one worker's hands |
| `Exclusion.StepKeeps` | src/scheduler.cc:137-273 | whatever the wake-ups, a step of any worker or from outside keeps the invariant, every fiber served or kept by one worker only, if and only if it enters no fiber that another worker serves, keeps for its next callback or has picked, nor as a task the one its own worker keeps |
| `Exclusion.ExclusionExactly` | src/scheduler.cc:137-273 | the same over every run, as an if-and-only-if |
| `Exclusion.InvIsSafe` | src/fiber.cc:118-197 | under the invariant the state assertions of swapIn, reset, YieldToReady, YieldToHold and addEvent hold and no fiber is with two workers |
| `Exclusion.OneWakeUpEntersAlone` | src/scheduler.cc:166-208 | with at most one outstanding wake-up for each fiber, a fiber kept for callbacks counting as woken, every step meets that condition |
| `Exclusion.MutualExclusion` | src/scheduler.cc:137-273 | in every interleaving in which no fiber ever has two outstanding wake-ups, counting queue entries, waiters, expired and picked tasks, READY hand-backs and the fiber a worker keeps for its next callback, no fiber is executed by two workers and none of those assertions fails, including wake-ups before HOLD is set and wake-ups on their way from a timer through its callback |
| `Exclusion.SharingFails` | src/fiber.cc:152-160 | entering a fiber that another worker serves or has picked breaks safety at once |
| `Exclusion.TakingAKeptFiberFails` | src/fiber.cc:118-124 | so does entering a fiber that another worker keeps, once that worker has a callback to run |
| `Exclusion.TwoWakeUpsBreakIt` | src/scheduler.cc:166-208 | a run of two workers in which a fiber scheduled twice fails the assertion of swapIn |
| `KeptFiber.KeptFiberBreaksIt` | src/scheduler.cc:223-251 | a run of two workers in which each fiber has at most one wake-up besides being kept, and an assertion fails |
| `Exclusion.FreshIsOrdered` | src/scheduler.cc:137-160 | the invariant holds of freshly started workers |
| `Hooks.FreshIsOrderly` | src/scheduler.cc:137-160 | so does the protocol's invariant |
| `Hooks.HasOrigin` | src/scheduler.cc:161-272 | every wake-up that a step does not create was there before it, at a place given by a function of the step |
| `Hooks.FollowingStaysOrderly` | src/hook.cc:187-236 | one step under the register-then-yield protocol keeps at most one wake-up per fiber |
| `Hooks.HooksAreSafe` | src/hook.cc:135-393 | programs that suspend only by the hooks' protocol meet the condition of mutual exclusion, so it holds of all their interleavings |
| `HookPrograms.MovesFollow` | src/hook.cc:135-393 | every step of do_io, connect_with_timeout and the sleep functions, with timeout, refusal, cancellation and retry, keeps to that protocol |
| `HookPrograms.ProtocolIsMoves` | src/hook.cc:135-393 | conversely every step that the protocol allows is a move of the programs: the rest of the system is not restricted, and the wake-ups that a fiber registers for itself are those of the calls |
| `HookPrograms.MoveStaysGood` | src/hook.cc:135-393 | a fiber has a wake-up of its own registered exactly from its registration until it is entered again |
| `HookPrograms.ProgramsAreSafe` | src/hook.cc:135-393 | in every interleaving of fibers that wait through the hooked functions no fiber has two wake-ups, none is executed twice and none of the assertions of swapIn, reset, the yields and addEvent on fiber states fails |
| `HookPrograms.TimeoutIsCancelled` | src/hook.cc:205-229 | a call lets go of its timeout only when that is no longer registered |
| `HookPrograms.CallsReturn` | src/hook.cc:171-236 | when a call returns, tries again or goes on to register |
| `HookPrograms.FreshIsGood` | src/scheduler.cc:137-160 | the programs' invariant holds of freshly started workers |
| `Accounting.StepBalances` | src/scheduler.cc:161-272 | every step keeps the task balance and both counters |
| `Accounting.RunBalances` | src/scheduler.cc:161-272 | over every interleaving each queued task is in the queue, in one worker's hands or was started or discarded; the active and idle counts are exact |
| `Accounting.FreshBalances` | src/scheduler.cc:137-160 | the balance holds of freshly started workers |
| `Flow.StepFlows` | src/scheduler.cc:161-272 | at every step each task is counted in the queue, in hand, picked or waiting; it appears only where it is scheduled, registered, re-armed, woken or given back READY, and disappears only where it is started, discarded or dropped |
| `Flow.RunFlows` | src/scheduler.cc:161-272 | the same over every run |
| `Flow.QueueIsInOrder` | include/sylar/scheduler.hh:151-161 | the queue grows at its end only and loses only what is picked |
| `Fibers.StepAccounts` | src/scheduler.cc:205-251 | a fiber that is EXEC is in some worker's hands, and one that is READY is in hand, queued or picked |
| `Fibers.RunAccounts` | src/scheduler.cc:205-251 | the same over every run that keeps mutual exclusion: HOLD is always set, and no READY fiber is lost |
| `Fibers.FreshAccounts` | src/scheduler.cc:137-160 | it holds of freshly started workers |
| `Fibers.BoundTasksStayHome` | src/scheduler.cc:174-178 | in every run a task bound to a worker is picked and started by that worker only |
| `Fibers.FreshIsBound` | src/scheduler.cc:137-160 | the condition of that law holds of freshly started workers |
| `Fibers.BindingIsLost` | src/scheduler.cc:212-214 | a run in which a fiber scheduled for the first worker yields READY and goes on on the second |
| `WakeUps.WakeUpStays` | src/scheduler.cc:161-272 | every step that keeps mutual exclusion leaves a wake-up where it was or moves it on towards the fiber, unless the step enters the fiber, finds it ended or drops the registration |
| `WakeUps.WakeUpSurvives` | src/scheduler.cc:161-272 | over every such run no wake-up is lost |
| `WakeUps.StartUsesItsOwn` | src/scheduler.cc:205-209 | the wake-up used up by entering a fiber is that fiber's |
| `Stopping.StoppingIsStable` | src/iomanager.cc:302-308 | once stopping holds it holds for good, for steps from inside, if and only if no worker is between its decrement for a READY fiber and the re-queueing, and none between taking expired callbacks and queueing them |
| `Stopping.HandBackUndoes` | src/scheduler.cc:209-214 | from either window a run makes stopping false again |
| `Stopping.StoppingMeansDone` | src/iomanager.cc:302-308 | when stopping answers true, every task ever queued has been started or discarded, nothing is registered and no worker is inside a fiber |
| `Stopping.UnaskedNeverStops` | src/scheduler.cc:277-283 | it never answers true before it was asked to stop |
| `Stopping.StartsUnasked` | src/scheduler.cc:277-283 | so, from the start, only after stop was called |
| `Stopping.WorkersExit` | src/scheduler.cc:253-271 | over every run: a worker has left its loop only after its idle fiber came to its end, never enters that again, and the idle fiber executes exactly while the worker is inside it |
| `Stopping.FreshIsParked` | src/scheduler.cc:137-160 | the condition of that law holds of freshly started workers |
| `Stopping.IdleDecides` | src/scheduler.cc:258-270 | a worker that comes back from its idle fiber and finds nothing leaves its loop if that has ended and enters it again if not |
| `Stopping.ReadyWindow` | src/scheduler.cc:209-214 | a run from fresh workers into the first window, from which stopping turns false |
| `Stopping.ExpiryWindow` | src/iomanager.cc:359-364 | a run from fresh workers into the second window, from which stopping turns false |
| `Events.TriggerKeeps` | src/iomanager.cc:37-51 | triggering a set bit clears it, consumes its ticket, wakes its waiter and touches no other descriptor |
| `Events.AddKeeps` | src/iomanager.cc:105-169 | addEvent aborts exactly on a registered event, is refused exactly when the kernel has a reason of its own, and otherwise gives the waiter a new ticket and keeps the invariant exactly when the calling thread has a scheduler |
| `Events.DelKeeps` | src/iomanager.cc:171-209 | delEvent succeeds exactly on a registered event the kernel lets go; it consumes that registration, wakes nobody and keeps the invariant |
| `Events.CancelKeeps` | src/iomanager.cc:211-243 | cancelEvent succeeds exactly then too, wakes the waiter of that registration, and never fails an assertion |
| `Events.CancelAllKeeps` | src/iomanager.cc:245-286 | cancelAll consumes every registration of the descriptor, wakes each waiter, and its last assertion holds |
| `Events.DispatchKeeps` | src/iomanager.cc:385-425 | dispatch aborts exactly when something registered is reported together with something that is not; otherwise the reported events are consumed and their waiters woken |
| `EventLaws.DispatchOnReport` | src/iomanager.cc:385-425 | on the report itself: skipped exactly when no direction that is waited on is reported, where errors and hang-ups report both; aborted exactly when one is reported that is not waited on; else the waiters of the reported directions, reader first, are consumed and woken |
| `EventLaws.RealEventsAre` | src/iomanager.cc:388-397 | reading is reported by EPOLLIN, EPOLLERR or EPOLLHUP, writing by EPOLLOUT, EPOLLERR or EPOLLHUP |
| `EventLaws.WokeByContext` | src/iomanager.cc:43-48 | who is woken is the callback of the context, or else its fiber |
| `EventLaws.TouchesOnly` | src/iomanager.cc:37-286 | every operation sets and clears exactly the bits it is for and leaves the contexts of all other slots alone |
| `EventLaws.AddStores` | src/iomanager.cc:154-166 | addEvent stores the thread's scheduler and the callback, or else the fiber |
| `Events.CloseKeeps` | src/iomanager.cc:133-150 | closing a descriptor keeps the kernel's list in agreement if and only if it has no events |
| `Events.StepKeeps` | src/iomanager.cc:105-286 | what callers owe is exactly what keeps assertions from failing and the invariant true |
| `Events.RunKeeps` | src/iomanager.cc:105-425 | the invariant holds after every sequence of operations |
| `Events.EventTokens` | src/iomanager.cc:37-425 | in every reachable state: a bit is set exactly when its context holds a scheduler and exactly one of fiber and callback; the pending count is the number of set bits; the kernel listens for exactly the set bits; every registration is live or was consumed exactly once, waking only its own waiter |
| `Events.PendingIsBits` | src/iomanager.cc:302-308 | the pending count is zero exactly when no descriptor has an event |
| `Events.HangUpAborts` | src/iomanager.cc:388-425 | a hang-up on a descriptor waited on for reading only fails the assertion |
| `Events.NoSchedulerAborts` | src/iomanager.cc:157-157 | an event registered from a thread without a scheduler follows the null scheduler when it comes |
| `Events.ClosedTooEarly` | src/iomanager.cc:133-146 | a descriptor closed while it waits cannot be waited on in the other direction when its number is reused |
| `EventTasks.OperationsAreSteps` | src/iomanager.cc:37-286 | every event operation is steps of the scheduler: a registration registers a waiter under its ticket, triggering fires it and queues its task, deleting drops it; the scheduler goes on waiting for exactly the live tickets |
| `EventTasks.EventsWakeForAnyWorker` | src/iomanager.cc:37-51 | an event operation queues behind what is queued and for any worker, whichever thread the fiber was scheduled for |
| `EventTasks.RunsAreRuns` | src/iomanager.cc:37-425 | the same over whole runs |
| `EventTasks.FreshIsCoupled` | src/iomanager.cc:53-77 | a fresh I/O manager and fresh workers agree |
| `EventTasks.OneTicketPerFiber` | src/iomanager.cc:105-169 | a fiber with at most one outstanding wake-up has at most one live ticket |
| `EventObject.IOManager.TriggerEvent` | src/iomanager.cc:37-51 | updates the context in place as the function says and queues the callback, or else the fiber, of the context |
| `EventObject.IOManager.AddEvent` | src/iomanager.cc:105-169 | the new state is that of the function, or nothing changed; the invariant holds after a success exactly when the thread has a scheduler |
| `EventObject.IOManager.DelEvent` | src/iomanager.cc:171-209 | the new state is that of the function and nobody is queued; the return value says whether the event was registered |
| `EventObject.IOManager.CancelEvent` | src/iomanager.cc:211-243 | the new state is that of the function and the waiter of the context is queued |
| `EventObject.IOManager.CancelEvents` | src/iomanager.cc:245-286 | the new state is that of the function and the waiters of the set bits are queued, reader first |
| `EventObject.IOManager.DispatchOne` | src/iomanager.cc:385-425 | on the report itself: which bits are cleared, who is queued in which order, and exactly when it is skipped or aborts |
| `EventObject.IOManager.DispatchLoop` | src/iomanager.cc:366-426 | the loop handles the reports in order and reaches its end exactly when each is, at its turn, within what is registered |
| `Pool.CountedKeeps` | src/http_connection.cc:328-414 | every step of every caller keeps the counter equal to the number of connections modulo 2^32 |
| `Pool.RunKeeps` | src/http_connection.cc:328-414 | over every interleaving: that equality, no connection in two places, and what is subtracted is always there to subtract |
| `Pool.CounterWraps` | src/http_connection.cc:328-414 | from an empty pool the counter is idle plus lent plus in flight modulo 2^32 |
| `Pool.UsableMeans` | src/http_connection.cc:336-349 | a connection can be lent exactly when it is connected and created + maxAlive is after now |
| `Pool.SweepMeans` | src/http_connection.cc:328-357 | a caller takes the first idle connection that is connected and young enough; all before it, and all when there is none, are neither |
| `Pool.ReleaseMeans` | src/http_connection.cc:400-414 | a released connection is put back exactly when it is connected, young enough and has requests left |
| `Pool.NoneLentTooOften` | src/http_connection.cc:400-414 | no connection is lent more than max(1, maxRequest) times |
| `Pool.Limit` | src/http_connection.cc:355-386 | with at most `width` callers between check and increment the number of connections is below maxSize + width and the counter is exact |
| `Pool.LimitOfSeparate` | src/http_connection.cc:355-386 | calls that do not overlap there never exceed maxSize, and the total is idle plus lent plus in flight |
| `Pool.LimitOfOverlapping` | src/http_connection.cc:355-386 | n callers never exceed maxSize + n - 1, however they overlap |
| `Pool.TwoCallersExceed` | src/http_connection.cc:355-386 | from every state with one place left, two callers that find it both take it |
| `PoolLimit.ContainedIsRoomy` | src/http_connection.cc:355-386 | the callers past the check cannot exceed the limit, however they go on, if and only if there is room for all of them |
| `PoolLimit.LimitExactly` | src/http_connection.cc:355-386 | a run keeps the limit in every state, and however the admitted callers go on from there, if and only if each passing check leaves room for the callers admitted before |
| `PoolLimit.FreshIsRoomy` | src/http_connection.cc:321-326 | an empty pool meets the starting condition of that law |
| `PoolLimit.OverlapExceeds` | src/http_connection.cc:355-386 | for every limit, a run of two callers from an empty pool to one connection too many |
| `Pool.HttpConnectionPool.PopUsable` | src/http_connection.cc:335-349 | the loop pops up to the first connection that is connected and young enough and counts the ones before it, which are not |
| `Pool.HttpConnectionPool.GetConnection` | src/http_connection.cc:328-398 | the first idle connection that is connected and young enough is lent and the ones before it are gone; when there is none, a new one is made and lent if and only if the limit and the network allow it; total is idle plus lent and within the limit |
| `Pool.HttpConnectionPool.ReleasePtr` | src/http_connection.cc:400-414 | the connection goes to the end of the idle list if and only if it is connected, young enough and has requests left, and the total drops by one exactly otherwise |
| `Pattern.ScanField` | src/log.cc:575-631 | the inner loop finds the name, the format and the end of a placeholder, or that the format is never closed |
| `Pattern.Init` | src/log.cc:550-659 | the nested loops compute the parse of the pattern, with its error flag |
| `Pattern.ProperParses` | src/log.cc:556-659 | parsing a printed list of proper pieces yields exactly that list without error |
| `Pattern.ParsesProper` | src/log.cc:556-659 | only proper lists parse back |
| `Pattern.RoundTrip` | src/log.cc:556-659 | the parser inverts the printer if and only if the list is proper |
| `Pattern.DoubledPercent` | src/log.cc:567-573 | the text `a%%b` is parsed as the text `a%` and the placeholder b |
| `PatternLaws.SimpleParses` | src/log.cc:556-659 | for lists of percent-free texts, names of letters a-z and A-Z and formats without a closing brace, no text next to text and none continuing a bare name, parsing the printed pattern gives exactly the list |
| `PatternLaws.ErrorExactly` | src/log.cc:647-652 | a pattern is parsed without an error if and only if it is the print of a proper list |
| `PatternLaws.UnclosedIsAnError` | src/log.cc:647-652 | a format that is never closed gives the error item before the text collected so far, loses the percent sign and reads the rest as text |
| `PatternLaws.BraceInName` | src/log.cc:592-599 | a closing brace that closes nothing belongs to the name |
| `PatternLaws.CapitalsAreLetters` | src/log.cc:114 | `%T%N%F`, as in the pattern that a new logger starts with, is the three placeholders of these names |
| `Prefix.NetworkAddress6` | src/address.cc:502-517 | the byte loop computes the network bytes |
| `Prefix.BroadcastAddress6` | src/address.cc:483-500 | the byte loop computes the broadcast bytes |
| `Prefix.SubnetMaskAddress6` | src/address.cc:519-531 | the byte loop computes the mask bytes |
| `Prefix.PrefixArithmetic6` | src/address.cc:483-531 | for every address and p < 128: floor(A / 2^(128-p)) * 2^(128-p), that plus 2^(128-p) - 1, and 2^128 - 2^(128-p) |
| `Prefix.NetworkIsMasked6` | src/address.cc:483-531 | the network address is the address AND the mask, the broadcast address the address OR its complement |
| `Prefix4.SwapOfOp` | src/address.cc:358-382 | AND and OR commute with the byte swap |
| `Prefix4.PrefixArithmetic4` | src/address.cc:358-392 | the same for IPv4 and p from 1 to 32 through the byte swap on either host, and a null result exactly for p > 32 |
| `Prefix4.SwapIsNetworkOrder` | include/sylar/endian.hh:55-79 | the swap is the change between a word of the host and the value of its four bytes in network order |
| `Prefix4.PrefixInMemory` | src/address.cc:358-392 | from bytes in memory to bytes in memory, the same on either host: in network order the results spell the address rounded down, that plus 2^(32-p) - 1, and the mask |
| `AddressText.Insert` | src/address.cc:442-481 | the loop prints the groups with the first run of zeros as a double colon |
| `AddressText.GroupIsHostIndependent` | src/address.cc:446-472 | the printed groups and the zero test do not depend on the host's byte order |
| `AddressText.TextReadsBack` | src/address.cc:442-481 | for any eight groups the text has at most one double colon and, read by section 2.2 of RFC 4291, gives back the same groups |
| `AddressText.CompressesExactly` | src/address.cc:453-476 | there is a double colon exactly when some group is zero |
| `AddressText.FirstRunIsCompressed` | src/address.cc:453-476 | it stands for the whole first run of zero groups |
| `AddressText.TextLooks` | src/address.cc:470-472 | the text is made of colons and lower-case hexadecimal digits |
| `AddressText.HexLooks` | src/address.cc:470-472 | a group is printed without leading zeros |
| `AddressText.GroupsAre` | src/address.cc:446-447 | two bytes to a group, the high one first |

## Left out

- ByteArray's writeToFile, readFromFile, toString and toHexString: file I/O, and thin loops over read.
- ByteArray: positions and sizes are unbounded, so a wrap-around of size_t is not modelled; freeing nodes is not modelled; during a copy loop the cursor is a local variable that is stored at the end of the loop.
- Stream readFixSize and writeFixSize, and the HTTP body and chunk loops on top of them.
- The Ragel grammars for HTTP and URIs, whose automata are generated.
- YAML configuration, LexicalCast, log appenders and loggers, LogFormatter's format items and the lookup of item names after parsing.
- ServletDispatcher, FdManager, threads and lock wrappers, daemon, environment and file utilities: only easy properties.
- Real epoll, sockets, DNS lookup and the forwarding of hooked functions: the kernel's answers are inputs.
- ucontext switching, stacks and the thread-local current fiber: a worker's current fiber is part of its program counter.
- The caller thread as a worker, the start and the joining of threads, and an idle fiber that ends by an exception.
- The assertion in the fiber's destructor: it fails when the last reference to a held fiber is dropped, as delEvent can do; references are not counted here.
- The tickle pipe: that an idle worker wakes up is liveness, and only safety is modelled.
- Hooks: that a timeout is honoured at all is liveness. A timeout's callback fires an event token or does nothing; whose flag it sets is an input of the program.
- Scheduler: listExpiredCb hands its callbacks to the idle worker one by one, which allows more interleavings than the code has.
- The growth of the descriptor table in addEvent, with its race between check and resize: the table is total.
- The 64-bit overflow of createTime plus maxAliveTime in the pool, and of deadlines in the timer laws that name it as a condition.
- IPv4 prefix length 0 and IPv6 prefix length 128 and above: the shift by 32, and the write after the last byte, have no defined result.
- IPv4 prefix length 1: the mask is taken as the two's-complement result of the signed shift and subtraction.
- LogFormatter: isalpha is that of the C locale, and characters outside ASCII are not letters.
- The IPv4 text form, the ports and the brackets of the IPv6 text form.
