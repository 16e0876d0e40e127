# Verification of the Smalltalk VM's core

This project models the algorithmic core of the virtual machine and proves what it is for: that the
inliner preserves meaning, that the collectors keep the object graph, that the scheduler loses no
wakeup, that bignum arithmetic is exact, that messages arrive as they were sent. Each part is written
in the form of the C it models: arrays that are updated in place stay arrays, objects with fields are
classes, and the concurrent protocols are state machines whose steps are what happens under one hold
of a lock, or between two holds. `dafny verify dfyconfig.toml` checks everything.

| part | modules |
|---|---|
| Magnitudes of large integers | `Limbs`, `BigIntMul`, `BigIntShift`, `BigIntDiv`, `BigIntGcd`, `BigIntDouble`, `BigIntText` |
| Bytecode and its encoding | `BytecodeMachine`, `Words`, `BytecodeStream`, `Relocation` |
| The tier-1 inliner | `InlineEligibility`, `InlineMeaning`, `InlineTheorem`, `InlineTemps`, `InlineStale`, `InlineMerged`, `InlineDiffers`, `InlineLayout`, `InlineLiterals`, `Inliner` |
| Inline caches | `InlineCache`, `InlineCacheInvariant`, `InlineCacheRuns`, `InlineCacheAgreement`, `InlineCacheOrder`, `InlineCacheGauge` |
| Register allocation | `Liveness`, `LiveRanges`, `RegisterScan`, `RegisterAllocator`, `PathLiveness`, `LoopRanges`, `PathMeaning`, `LoopFindings` |
| Young space | `ScavengeModel`, `Scavenger`, `RememberedSet`, `MinorCollection` |
| Old space | `FreeMap`, `FreeList`, `Marking`, `Sweeping`, `FullCollection` |
| Stopping the world | `Safepoint`, `SafepointProgram` |
| Fibers | `Scheduler`, `SchedulerInvariant`, `SchedulerWakes`, `SchedulerPolling`, `SchedulerRuns`, `SchedulerOrder`, `SchedulerFates`, `SchedulerDeadlines`, `TimerHeap`, `SchedulerTimers` |
| Messages between isolates | `MessageFormat`, `IdMap`, `MessageWriter`, `MessageParse`, `MessageReader`, `MessageRoundTrip` |

`Options` holds the one Option datatype.

## Model

| member | source | states |
|---|---|---|
| `BigIntMul.Normalize` | vm/runtime/BigInt.c:25-31 | The answered length is the shortest prefix with the same value; everything above it is zero |
| `BigIntMul.Compare` | vm/runtime/BigInt.c:34-45 | The three-way order of the values of two normalized magnitudes |
| `BigIntMul.Add` | vm/runtime/BigInt.c:48-62 | The result, normalized, has the value of the sum; limbs beyond max(na, nb) + 1 are untouched |
| `BigIntMul.Sub` | vm/runtime/BigInt.c:65-78 | For a >= b the result, normalized, has the value of the difference; limbs beyond na are untouched |
| `BigIntMul.MulSchoolbook` | vm/runtime/BigInt.c:84-108 | The na + nb limbs written have the value of the product, for all lengths |
| `BigIntMul.AddInto` | vm/runtime/BigInt.c:113-132 | Adding in place with the carry rippled upward: where the sum fits, the value grows by exactly the shifted addend and nothing above is touched |
| `BigIntMul.SubFrom` | vm/runtime/BigInt.c:136-165 | The same for subtracting in place, with the borrow |
| `BigIntMul.MulKaratsuba` | vm/runtime/BigInt.c:173-249 | Karatsuba, at every length above and below the threshold, refines the product: same contract as the schoolbook method |
| `BigIntMul.Mul` | vm/runtime/BigInt.c:252-263 | bigIntMul: the normalized result has the value of the product, whichever way it is computed |
| `BigIntDiv.Estimate` | vm/runtime/BigInt.c:303-316 | Knuth's trial digit, after its two corrections, is the quotient digit or one more: qhat*V < W + V and W < (qhat+1)*V |
| `BigIntDiv.MulSub` | vm/runtime/BigInt.c:318-340 | Multiply and subtract: the window loses qhat times the divisor, up to the borrow, which is 0 or 1 |
| `BigIntDiv.AddBack` | vm/runtime/BigInt.c:342-351 | Adding the divisor back restores the window, up to a dropped carry |
| `BigIntDiv.Digit` | vm/runtime/BigInt.c:304-353 | One digit step is exact: window = q*v + remainder with remainder < v, and the limb above becomes 0 |
| `BigIntDiv.DivModKnuth` | vm/runtime/BigInt.c:270-373 | Schoolbook long division: a = q*b + r with r < b, both normalized, nothing else written |
| `BigIntDiv.DivModLimb` | vm/runtime/BigInt.c:388-402 | Division by a single limb: a = q*b + r with r < b, both normalized; limbs of q from na on and of r from 1 on are untouched |
| `BigIntDiv.DivMod` | vm/runtime/BigInt.c:376-404 | bigIntDivMod on all normalized inputs: refused exactly for b = 0 with both outputs untouched, otherwise a = q*b + r with r < b, normalized; limbs of q from na on and of r from nb on are untouched |
| `BigIntGcd.ShiftLeft` | vm/runtime/BigInt.c:407-425 | The result has the value a * 2^bits; an empty magnitude needs no room; nothing above na + bits/32 + 1 is written |
| `BigIntGcd.ShiftRight` | vm/runtime/BigInt.c:428-447 | The result has the value a / 2^bits, rounded down; the limbs above it that the shift leaves are zero, all others untouched |
| `BigIntGcd.LowBit` | vm/runtime/BigInt.c:465-479 | 0 for zero, otherwise one plus the number of factors of two |
| `BigIntGcd.Gcd` | vm/runtime/BigInt.c:508-563 | bigIntGcd answers the greatest common divisor: it divides both and every common divisor divides it; writes exactly the limbs of the odd part shifted by the common twos, and one |
| `BigIntGcd.OneMoreSuffices` | vm/runtime/BigInt.c:508-563 | For all operands min(na, nb) + 1 limbs are room enough |
| `BigIntGcd.MinSuffices` | vm/runtime/BigInt.h:51-52 | The documented min(na, nb) limbs are room enough if and only if |g| + common/32 < min(na, nb), g the odd part of the result; the bound a caller can use beforehand is OneMoreSuffices |
| `BigIntGcd.MinTooSmall` | vm/runtime/BigInt.h:51-52 | A failing input: the gcd of 1 and 1 with one limb of room |
| `BigIntDouble.HighBit` | vm/runtime/BigInt.c:450-462 | The number of bits: 2^(bits-1) <= value < 2^bits |
| `BigIntDouble.BitAt` | vm/runtime/BigInt.c:496-503 | Bit index of the value, also beyond the last limb |
| `BigIntDouble.ToDouble` | vm/runtime/BigInt.c:566-610 | Round to nearest, ties to even, as IEEE 754 double; exact below 2^53; infinite exactly from 2^1024 - 2^970 on |
| `BigIntDouble.AllOnes` | vm/runtime/BigInt.c:572-609 | 2^1024 - 1, of 1024 bits, passes the bit-count guard and still overflows by its rounding carry |
| `BigIntText.ToString` | vm/runtime/BigInt.c:622-694 | The digits of the value without leading zeros, or nothing, exactly when the buffer is shorter than the size asked for |
| `BigIntText.FromStringSize` | vm/runtime/BigInt.c:697-710 | The limbs that len digits can need, each digit counted with the bits of base - 1 |
| `BigIntText.FromString` | vm/runtime/BigInt.c:713-764 | The value of any digit string in any base from 2 to 36, within the limbs FromStringSize gives |
| `BigIntText.PrintThenParse` | vm/runtime/BigInt.c:622-764 | Printing and parsing gives the magnitude back, in every base |
| `BigIntText.ParseThenPrint` | vm/runtime/BigInt.c:622-764 | Parsing and printing a digit string without leading zeros gives the string back |
| `BigIntText.TextUnique` | vm/runtime/BigInt.c:622-694 | Two digit strings without leading zeros of one value are the same string |
| `InlineTheorem.InliningPreservesMeaning` | vm/compiler/Optimizer.c:365-501 | For every frame, heap and world, a method and its expansion have the same answers, with the same final heap and trace, and one comes back exactly when the other does |
| `InlineTheorem.SiteForward` | vm/compiler/Optimizer.c:365-501 | A send that comes back brings the guarded site to the same point, on a guard hit through the body, on a miss through the fallback |
| `InlineTheorem.SiteBackward` | vm/compiler/Optimizer.c:365-501 | A guarded site that the rewriting gets through is a send that comes back |
| `InlineMeaning.BodyRuns` | vm/compiler/Optimizer.c:717-889 | Whatever the callee answers, its inlined body delivers into the send's result, reaching the body's end for the first time then, and leaving the caller's slots alone |
| `InlineMeaning.BodyComesBack` | vm/compiler/Optimizer.c:717-889 | If the run goes on to finish after entering the body, the callee answers |
| `InlineEligibility.OperandsAccepted` | vm/compiler/Optimizer.c:680-697 | Every operand can be remapped |
| `InlineEligibility.InlineEligible` | vm/compiler/Optimizer.c:514-619 | The byte scan accepts exactly the small leaf methods whose operands can be remapped and whose every jump lands on an instruction of their own or their end |
| `InlineEligibility.CalleeCanFallThrough` | vm/compiler/Optimizer.c:628-677 | Exactly when control can reach the end without a return |
| `Inliner.Optimizer.AddLiteral` | vm/runtime/Collection.c:100-124 | The index of the first literal that is the object or a String of its contents; at most one literal is added, at the end |
| `InlineLiterals.MergeIs` | vm/runtime/Collection.c:100-124 | Merging keeps the literals of the frame in place and adds, in order, those like no literal there: afterwards every merged value has one like it, and every literal added is one of them |
| `Inliner.Optimizer.AdjustOperand` | vm/compiler/Optimizer.c:897-940 | Self, arguments and temporaries go to the inline area, variables to slots of the spilled self, literals to their place in the merged frame |
| `Inliner.Optimizer.EmitInlinedBody` | vm/compiler/Optimizer.c:717-889 | The emitted body has every callee instruction's image with every jump landing on its target's image and every return on the end; the literals added are bounded by half the body's bytes |
| `Inliner.Optimizer.TryInlineSite` | vm/compiler/Optimizer.c:365-501 | A site is inlined exactly when feedback, operands, callee and both budgets allow it; otherwise nothing changes |
| `Inliner.OptimizeMethod` | vm/compiler/Optimizer.c:99-305 | Exactly the sends are inlined that feedback, operands, callee and both budgets allow when their turn comes, the first as the last; the answer is an expansion whose sites guard the class their own cell saw and hold what that class looks up, in merged form, and else the method given with its literal frame merged in that order and its temporaries grown by the largest area; nothing is answered exactly when there is no such send; the site map pairs every copy and guard with the old cells |
| `Inliner.OptimizedMeansTheSame` | vm/compiler/Optimizer.c:99-305 | What OptimizeMethod answers means what it was given means, for every image whose inlined callees are faithful: no String of theirs gives way, their variables lie where the receiver has them, their temporaries are written first |
| `InlineMerged.PlainExpansion` | vm/compiler/Optimizer.c:897-940 | The emitted code is an expansion with the merged callees: literals that stand for their own, variables placed by the receiver's class |
| `InlineDiffers.StandsForItself` | vm/runtime/Collection.c:115-124 | A callee literal keeps its identity if and only if it is no String that another of equal contents precedes, or replaces, in the frame |
| `InlineDiffers.LiteralReads` | vm/compiler/Optimizer.c:928-935 | The image of a callee literal reads the literal that stands for it, in every frame and heap |
| `InlineDiffers.VariableReads` | vm/compiler/Optimizer.c:919-926 | Reading a variable by two layouts agrees in all heaps if and only if the layouts do |
| `InlineDiffers.StringGivesWay` | vm/compiler/Optimizer.c:928-935 | A failing input: the callee answers its own 'a', inlined it answers the caller's |
| `InlineDiffers.VariableMoves` | vm/compiler/Optimizer.c:919-926 | A failing input: an inherited method reads slot 0 when called on an indexed subclass and slot 1 when inlined |
| `InlineTemps.WrittenFirstIgnoresEntry` | vm/compiler/Optimizer.c:717-889 | A callee that writes each temporary before reading it, on every path, cannot tell what the shared inline area held |
| `InlineTemps.StaleTemporariesTell` | vm/compiler/Optimizer.c:717-889 | For a callee that can tell, there are a receiver, arguments, frame and heap for which the call and the inlined body part: the condition is exact |
| `InlineStale.StaleTemporary` | vm/compiler/Optimizer.c:717-889 | A failing input: two sites share the inline area and the second callee answers what the first left |
| `Relocation.Assembler.EmitJump` | vm/jit/Assembler.h:177-189 | A jump to a bound label lands there; one to an unbound label waits for it |
| `Relocation.Assembler.Bind` | vm/jit/Assembler.h:192-218 | Binding makes the waiting jump land on the bound instruction and changes nothing else |
| `BytecodeStream.Emitter.EmitInstr` | vm/compiler/Bytecodes.h:82-196 | Each instruction's bytes, arguments in reverse order, appended |
| `BytecodeStream.RoundTrip` | vm/compiler/Bytecodes.h:82-287 | Decoding an encoded method gives the method back |
| `BytecodeStream.PatchedStream` | vm/jit/Assembler.h:192-218 | Writing a displacement over four bytes of the stream gives the stream of the code with that one jump retargeted |
| `SchedulerRuns.NoLostWakeup` | vm/concurrency/Scheduler.c:713-850 | In every reachable state a suspended fiber's timer, descriptor or signaller still has it in hand |
| `SchedulerRuns.FiredWakeCounts` | vm/concurrency/Scheduler.c:713-731 | A source that fires finds its fiber suspended, and readies it at home, or parking, and marks it |
| `SchedulerRuns.WakeWhileParkingEndsReady` | vm/concurrency/Scheduler.c:713-731 | A wake during the hand-off stays recorded through every step until the fiber is ready on its home queue |
| `SchedulerRuns.NeverAllAsleep` | vm/concurrency/Scheduler.c:1005-1065 | While the pool is up some worker is awake, or polling with a kick, a deadline or a descriptor to bring it back |
| `SchedulerRuns.QueuesServed` | vm/concurrency/Scheduler.c:680-696 | A worker with fibers queued is not stuck: not asleep unnotified, not in epoll_wait unkicked |
| `SchedulerRuns.PollerQueueEmpty` | vm/concurrency/Scheduler.c:680-696 | A poller in epoll_wait that has not been kicked has an empty queue of its own |
| `SchedulerRuns.ShutdownOnlyWhenDrained` | vm/concurrency/Scheduler.c:1030-1039 | After shutdown no fiber runs or is queued, and none waits for a timer or a descriptor |
| `SchedulerRuns.OneStack` | vm/concurrency/Scheduler.c:464-472 | A fiber's stack is on at most one worker, its home |
| `SchedulerRuns.QueuedOnce` | vm/concurrency/Scheduler.c:285-315 | A queued fiber is ready, on its home queue, once |
| `SchedulerOrder.PlaceMoves` | vm/concurrency/Scheduler.c:285-316 | A queued fiber keeps its place, moves up exactly when its home worker pops, and is popped exactly when it is first |
| `SchedulerOrder.ServedInOrder` | vm/concurrency/Scheduler.c:285-316 | In every run: a fiber at place i is popped at its worker's pop number i + 1, whatever else happens |
| `SchedulerOrder.PoppedRuns` | vm/concurrency/Scheduler.c:1005-1028 | What a worker pops it runs, as its very next step, and nothing else |
| `SchedulerOrder.ParkFate` | vm/concurrency/Scheduler.c:743-850 | A fiber that yields, or is woken while it parks, is ready behind all others when its worker commits it; else one that parks is suspended on its source; one that finished is gone; whatever the others do meanwhile |
| `SchedulerOrder.DealtRound` | vm/concurrency/Scheduler.c:244-249 | Homes are dealt in turn: after n spawns the next home is n workers on, around |
| `SchedulerFates.Spawned` | vm/concurrency/Scheduler.c:637-673 | A new fiber is last in the queue of the worker whose turn it is, or suspended; no other fiber is touched |
| `SchedulerFates.SuspendedUntilWoken` | vm/concurrency/Scheduler.c:713-731 | In every run a fiber suspended on a source stays so until the first wake, which makes it ready at the end of its home queue |
| `SchedulerFates.StripeExclusive` | vm/memory/Heap.c:262-272 | From its entry to its exit or its wait a fiber holds the stripe, and nobody enters it |
| `SchedulerFates.StripeMoves` | vm/memory/Heap.c:262-272 | A stripe is taken only when free, and is free after an exit or a wait, which only its holder makes |
| `SchedulerFates.WaiterMoves` | vm/concurrency/Scheduler.c:778-806 | A waiter leaves its queue only to a fiber that holds the stripe and fetches it, and leaves that fiber only when it is resumed by it |
| `SchedulerFates.WaitsUntilFetched` | vm/concurrency/Scheduler.c:778-806 | In every run a waiter stays queued on its stripe until it is fetched |
| `SchedulerFates.FetchedUntilResumed` | vm/concurrency/Scheduler.c:778-806 | In every run a fetched waiter stays in the hands of the fiber that fetched it until that one resumes it |
| `SchedulerFates.SolePoller` | vm/concurrency/Scheduler.c:1042-1049 | At most one worker polls, exactly while the flag is up; the waiters counted are those armed and those the poller has yet to resume; the running count is the number of workers with a fiber in hand |
| `SchedulerFates.KickedByPush` | vm/concurrency/Scheduler.c:687-696 | The wake descriptor is written only when a fiber is queued while somebody polls, and the poller's return empties it |
| `SchedulerFates.IdleUntilWork` | vm/concurrency/Scheduler.c:1050-1063 | An idle worker gets up exactly at a check that finds a fiber of its own, the end, or events nobody waits for |
| `SchedulerDeadlines.CoveredIff` | vm/concurrency/Scheduler.c:816-832 | While a poller waits, whatever the others do, every outstanding deadline is covered by its timeout if and only if none was uncovered before and no fiber has gone to sleep with an earlier deadline |
| `SchedulerDeadlines.CoveredSinceWait` | vm/concurrency/Scheduler.c:929-948 | From the moment the poller goes in: every deadline is covered if and only if no earlier-deadline sleep has come since |
| `SchedulerDeadlines.SleepUnserved` | vm/concurrency/Scheduler.c:816-832 | A failing run: a fiber sleeps until 5 while a peer is in epoll_wait without a deadline; at 1000 no worker can do anything until a descriptor fires |
| `SchedulerTimers.TopIsEarliest` | vm/concurrency/Scheduler.c:935-939 | The deadline at the top of the heap is the earliest of all timers |
| `SchedulerTimers.SleepPushes` | vm/concurrency/Scheduler.c:816-832 | A fiber that goes to sleep is not in the heap, and pushing it makes the heap the timers of the next state |
| `SchedulerTimers.ExpireRuns` | vm/concurrency/Scheduler.c:394-405 | Waking the fibers taken out, in order, is a run of Expire steps from any state of the invariant, each of them enabled; the heap left holds exactly the timers left |
| `SchedulerTimers.ServeTimers` | vm/concurrency/Scheduler.c:394-405 | wakeExpiredTimers on the heap of the scheduler refines that run, the earliest deadline first, and afterwards the poll may end: the guard of its end holds at the time read |
| `TimerHeap.FirstIsEarliest` | vm/concurrency/Scheduler.c:345-389 | The first entry of a heap is no later than any other |
| `TimerHeap.Heap.Push` | vm/concurrency/Scheduler.c:345-364 | The array stays a heap and gains exactly the new timer |
| `TimerHeap.Heap.Pop` | vm/concurrency/Scheduler.c:367-389 | The array stays a heap and loses exactly its first timer |
| `TimerHeap.Heap.WakeExpired` | vm/concurrency/Scheduler.c:394-405 | Exactly the timers that are due are taken out, the earliest first |
| `Safepoint.CollectorRunsAlone` | vm/memory/Heap.c:162-228 | While a thread collects no other runs managed code or collects, and every listed one is at a poll or blocked |
| `Safepoint.ListFrozenDuringCollection` | vm/memory/Heap.c:104-155 | No step by anyone changes the mutator list during a collection, and no other thread's step changes the collector, the epoch or the request |
| `Safepoint.CacheHoldsOnlyCurrentEntries` | vm/core/Lookup.c:103-109 | A thread running managed code holds only lookup-cache entries written since the last collection |
| `Safepoint.CacheKeptWithinEpoch` | vm/core/Lookup.c:103-109 | Between collections a checked lookup cache has what is put in and loses nothing |
| `Safepoint.NeverStuck` | vm/memory/Heap.c:162-228 | The handshake does not deadlock: in every reachable state a thread that has not ended can go on, or the holder of gcLock can, or one that the holder waits for |
| `SafepointProgram.KeepsToProgram` | vm/memory/Heap.c:104-228 | In every run the steps of each thread are those of its program: registered once, then rounds of polling, blocking and collecting, each gone through in order, and at most one ending |
| `SafepointProgram.BackInManaged` | vm/memory/Heap.c:162-228 | A thread in managed code has done whole rounds since it registered, and has not asked to end |
| `SafepointProgram.EndsIffAsked` | vm/memory/Heap.c:128-155 | A thread is on its way out, or out, exactly if it asked to end: no lock it waits for sends it elsewhere |
| `SafepointProgram.UnlistedAsked` | vm/memory/Heap.c:104-155 | A registered thread is off the list only when it has asked to end and is dead |
| `SafepointProgram.EpochCounts` | vm/memory/Heap.c:534-560 | The epoch counts the collections |
| `Scavenger.Collector.ForwardObject` | vm/memory/Scavenger.c:679-704 | Survivors of the last scavenge are promoted, others copied; the copy always fits the destination |
| `Scavenger.Collector.IterateObject` | vm/memory/Scavenger.c:707-731 | Every slot of the object ends up outside the abandoned semispace, and an old object that still points to young space is remembered |
| `Scavenger.Collector.Scavenge` | vm/memory/Scavenger.c:87-159 | All roots and objects are finished, the destination does not overflow, exactly the old objects with young references are remembered, and exactly the remembered ones are tagged so |
| `Scavenger.GraphKept` | vm/memory/Scavenger.c:623-731 | Exactly the reachable young objects have a new place, no two the same, each with its shape, hash, bytes and the images of its fields |
| `MinorCollection.CollectYoung` | vm/memory/Scavenger.c:484-545 | The whole scavenge from the remembered sets as the write barrier left them; the heap, roots, sets and tags it leaves meet what the next scavenge and the write barrier require |
| `MinorCollection.StorePtr` | vm/core/Thread.h:115-121 | A store keeps what a scavenge requires: every old object with a young reference is in a set, exactly the recorded objects are tagged; the sets gain the object exactly if it is old and the value young |
| `MinorCollection.TwiceMakesOld` | vm/memory/Scavenger.c:679-704 | Of the objects forwarded by the second of two scavenges exactly those that the first had copied are promoted |
| `MinorCollection.DetachAll` | vm/memory/Scavenger.c:511-529 | Every source set is detached, and has a fresh empty chain, before any is walked |
| `MinorCollection.WalkDetached` | vm/memory/Scavenger.c:531-541 | Exactly the entries of the detached chains are visited |
| `MinorCollection.NextBegins` | vm/memory/Scavenger.c:87-159 | The heap a finished scavenge leaves is one that a scavenge can start from: pointers lead to objects, which lie apart |
| `MinorCollection.NextGuarded` | vm/memory/Scavenger.c:484-545 | With the sets as a scavenge leaves them every old-to-young reference is recorded for the next |
| `RememberedSet.Set.Add` | vm/memory/RememberedSet.h:37-58 | The entry is added and no other lost; a full block is not written past |
| `RememberedSet.Set.Splice` | vm/memory/Heap.c:138-152 | An exiting worker's chain is concatenated without losing an entry |
| `RememberedSet.VisitAll` | vm/memory/RememberedSet.h:109-158 | A walk with the iterator visits every entry, in order, and nothing else |
| `Marking.Marker.MarkObject` | vm/memory/GarbageCollector.c:419-430 | An unmarked object is marked and queued once, a marked one left alone |
| `Marking.Marker.IterateObject` | vm/memory/GarbageCollector.c:392-416 | The invariant of the mark phase with the object done: all it refers to is marked, and it is remembered, and tagged, exactly if it is old and refers to a young object |
| `Marking.Marker.MarkRoots` | vm/memory/GarbageCollector.c:46-62 | Exactly the objects found from the roots without passing through one marked before are marked; exactly the old ones among them with young references are remembered, once |
| `Marking.CleanStart` | vm/memory/GarbageCollector.c:46-62 | From clear marks exactly the reachable objects are marked |
| `Marking.MarksAllIff` | vm/memory/GarbageCollector.c:419-430 | With marks left over every reachable object ends up marked if and only if what reachable left-over objects refer to is marked too or found |
| `Sweeping.SweepPage` | vm/memory/GarbageCollector.c:498-560 | One page: the cells are as Swept says, the page stays exactly if it has an object that stays or is the first, and its holes go to the free list |
| `Sweeping.GcSweep` | vm/memory/GarbageCollector.c:456-562 | The pages that stay and, exactly, their holes on a valid free list |
| `Sweeping.SweptPage` | vm/memory/GarbageCollector.c:505-544 | Marked objects stay in place unmarked, unmarked ones with a finalizer to run stay in place marked, no other is left, holes are maximal, no byte is lost |
| `Sweeping.LiveKept` | vm/memory/GarbageCollector.c:546-560 | No page with an object that stays is given back |
| `FullCollection.CollectedOld` | vm/memory/Heap.c:631-657 | After mark and sweep an old object is in place and unmarked exactly when it is reachable; the objects left marked are exactly the dead ones kept for their finalizers |
| `FullCollection.NextStartsClear` | vm/memory/GarbageCollector.c:520-531 | The next mark phase starts from clear marks in old space if and only if no dead object was kept for its finalizer |
| `FullCollection.LostIff` | vm/memory/Heap.c:631-657 | With marks left over, a reachable old object is lost if and only if it was not marked before and no chain of unmarked objects leads to it |
| `FullCollection.FinalizedHidesChild` | vm/memory/GarbageCollector.c:520-531 | A failing run: the object kept for its finalizer is left marked, the next mark phase finds only what it does not hide, and a new object stored in it is freed while reachable |
| `FullCollection.KeptClosedIff` | vm/memory/GarbageCollector.c:520-531 | After a collection the old objects kept refer only to kept ones if and only if, before the sweep, what the dead ones with a finalizer refer to was reachable or had a finalizer to run too |
| `FullCollection.FinalizedLosesChild` | vm/memory/GarbageCollector.c:520-531 | A failing input: a dead object kept for its finalizer refers to a dead one that the same sweep frees |
| `FreeMap.Next` | vm/memory/FreeList.c:227-257 | The first bin from index on whose bit is set, or -1 exactly when there is none |
| `FreeList.Allocator.AddFreeSpace` | vm/memory/FreeList.c:171-188 | The bytes given, and no others, become free, as a chunk at the head of the bin of its size, and the list stays valid |
| `FreeList.Allocator.Pop` | vm/memory/FreeList.c:191-203 | A chunk of the bin's size is taken out |
| `FreeList.Allocator.Split` | vm/memory/FreeList.c:213-224 | The remainder goes back; exactly the bytes asked for are taken |
| `FreeList.Allocator.TryAllocate` | vm/memory/FreeList.c:106-158 | Fails, changing nothing, exactly when no chunk is large enough; otherwise exactly the bytes asked for stop being free: the first ones of the first chunk that fits in the first bin with chunks, from the exact one on, and the rest of it heads its own bin |
| `FreeList.BestFit` | vm/memory/FreeList.c:106-158 | The sized bins serve best-fit: the chunk chosen is no larger than any other of theirs that is large enough |
| `FreeList.Serve` | vm/memory/FreeList.c:78-224 | Over every sequence of requests and returns, after each of them, free and held regions partition the page: nothing is lost, nothing handed out twice; every request is granted as long as a chunk is large enough |
| `IdMap.Table.GetOrPut` | vm/runtime/Message.c:79-90 | The open-addressed table behaves as a map: known keys answer their number, new ones get the number given |
| `IdMap.Table.Grow` | vm/runtime/Message.c:59-76 | Doubling the table keeps every entry |
| `MessageWriter.Serialize` | vm/runtime/Message.c:175-188 | Succeeds exactly when no object reachable from the root is a block, context or compiled code, numbering exactly the reachable objects, each once |
| `MessageReader.Deserialize` | vm/runtime/Message.c:299-314 | Succeeds exactly when the bytes start with the encoding of a valid message: tags, counts, names, classes and back references all in order; the result is that message built, numbered and with its symbols interned; any bytes leave the existing objects and symbols as they are |
| `MessageReader.MessageIff` | vm/runtime/Message.c:215-297 | Parsing succeeds exactly on the bytes that start with a valid message, and answers it |
| `MessageParse.ParseSound` | vm/runtime/Message.c:215-297 | What is parsed is valid and its encoding is the bytes consumed |
| `MessageParse.ParseComplete` | vm/runtime/Message.c:215-297 | The encoding of every valid message is parsed back, to its end |
| `MessageRoundTrip.WrittenIsMessage` | vm/runtime/Message.c:120-188 | What the writer writes is a message to the reader, and only the one written |
| `MessageRoundTrip.RoundTrip` | vm/runtime/Message.c:175-314 | Writing and reading gives an isomorphic copy of everything reachable, sharing and cycles included, with symbols and classes resolved by name and every plain object new |
| `InlineCache.BuildState` | vm/jit/InlineCache.c:56-114 | Nothing to publish exactly when the class is covered or the cell mega; otherwise the state extended by the class, or mega at capacity, chained to its predecessor |
| `InlineCache.TargetsEntry` | vm/jit/InlineCache.c:318-329 | Whether any way of the state goes to the retired entry |
| `InlineCacheRuns.FreeChain` | vm/jit/InlineCache.c:156-164 | The whole chain is freed and its bytes taken off the counter |
| `InlineCacheRuns.ResetCells` | vm/jit/InlineCache.c:179-198 | All chains freed; mega cells parked on the mega sentinel, others unlinked |
| `InlineCacheRuns.Partition` | vm/jit/InlineCache.c:142-164 | In every run each allocated state is on exactly one cell's chain or private to exactly one handler, and published states are well shaped |
| `InlineCacheRuns.PublishedFixed` | vm/jit/InlineCache.c:142-153 | A published state does not change until the sweep frees it |
| `InlineCacheRuns.CellMoves` | vm/jit/InlineCache.c:56-114 | A cell moves only by learning a class, being retired, or being swept |
| `InlineCacheRuns.MegaForever` | vm/jit/InlineCache.c:179-198 | A mega cell stays mega in every run |
| `InlineCacheOrder.NeverBack` | vm/jit/InlineCache.c:142-153 | Between two sweeps a cell that points where it pointed before has not moved in between, although addresses are reused |
| `InlineCacheOrder.PublishesIff` | vm/jit/InlineCache.c:56-153 | A miss handler's class gets into the cell exactly if nobody has moved the cell since the handler loaded it; otherwise no cell is touched |
| `InlineCacheOrder.RetiresIff` | vm/jit/InlineCache.c:306-337 | The walk unlinks a cell that goes to the old entry exactly if nobody has moved the cell since the walk loaded it |
| `InlineCacheOrder.WalkInOrder` | vm/jit/InlineCache.c:306-337 | The walk loads every cell once, in order, and ends when all have had their turn |
| `InlineCacheAgreement.StepAgrees` | vm/jit/InlineCache.c:306-337 | A step keeps the caches in agreement with uncached lookup if and only if it is no late publish and no lost retirement |
| `InlineCacheAgreement.CachesAgree` | vm/jit/InlineCache.c:266-337 | In every run whose lookups are timely and whose retirements succeed or are superseded, a cell sends a class where lookup would, whenever no retirement walk is under way |
| `InlineCacheAgreement.LostRetirement` | vm/jit/InlineCache.c:306-337 | A failing run: a miss for another class grows the cell between the walk's load and its compare-and-swap; the old entry stays reachable |
| `InlineCacheGauge.GaugeExact` | vm/jit/InlineCache.c:142-164 | In every run the byte gauge with the publishes not yet counted is at most the bytes on the chains; equal if no two updates overlapped; and, at rest, equal if and only if none ever did |
| `InlineCacheGauge.OneWorker` | vm/jit/InlineCache.h:25-26 | With at most one update under way at a time the gauge is exact |
| `InlineCacheGauge.LostUpdate` | vm/jit/InlineCache.c:142-149 | A failing run: two handlers read the gauge at 0 and both write 56 for 112 bytes |
| `RegisterScan.ScanRegisters` | vm/jit/RegisterAllocator.c:458-496 | No two variables live at once share a register; the context keeps its own; a variable is spilled only if it is live together with more others than there are registers for, and in favour of one that ends no later |
| `RegisterScan.Scanner.RemoveDead` | vm/jit/RegisterAllocator.c:538-555 | What stays active reaches the new variable's start, the ended ones' registers are free again, and the invariant of the scan is kept |
| `Liveness.Vars.ExamineOperand` | vm/jit/RegisterAllocator.c:363-397 | The use is covered by the range of every variable the operand touches, and of the arguments and temporaries exactly the one named is touched |
| `RegisterAllocator.ExtendLoopVarRanges` | vm/jit/RegisterAllocator.c:248-256 | A backward jump widens to itself the collector's bound of exactly the ranges that overlap [target, jump], where it is lower |
| `RegisterAllocator.ScanCode` | vm/jit/RegisterAllocator.c:259-340 | Every use lies within the range of the variables it needs; every range that reaches a loop has its collector's bound at the loop's end or later; arguments and temporaries have the ranges of RangeAfter |
| `RegisterAllocator.ComputeRegsAlloc` | vm/jit/RegisterAllocator.c:81-167 | Variables whose textual ranges intersect do not share a register; every use lies within its range; the ranges of arguments and temporaries are exact, as in RangeExact; self is covered from the start; what is spilled is spilled as ScanRegisters says; frameless exactly when no instruction needs a frame and nothing is spilled |
| `LiveRanges.RangeExact` | vm/jit/RegisterAllocator.c:236-340 | [start, end] spans the mentions of a temporary, and of an argument from the method's start on; gcEnd is the last mention or the end of the last loop with one, whichever is later; a temporary with no mention has no range |
| `PathLiveness.CarriedWithin` | vm/jit/RegisterAllocator.c:236-247 | A range over all mentions covers a temporary wherever a written value of it is carried to a read, along any path, if and only if it covers the backward jumps that carry one |
| `LoopRanges.CollectorCovers` | vm/jit/x64/CodeGeneratorX64.c:2649-2653 | The stack-map test start <= n <= gcEnd holds wherever the temporary is carried if and only if every backward jump that carries it has a mention at or before its target, and at or after itself a mention or the end of a loop with one |
| `LoopRanges.NestedCovers` | vm/jit/RegisterAllocator.c:236-256 | In code whose loops do not cross: if and only if every backward jump that carries it has a mention at or before its target |
| `LoopRanges.AssignedCovers` | vm/jit/RegisterAllocator.c:236-256 | In such code with loops entered at their targets the test holds for every temporary that is assigned before it is read |
| `LoopRanges.RegistersCover` | vm/jit/RegisterAllocator.c:236-247 | The register range [start, end] covers a temporary wherever it is carried if and only if every backward jump that carries it has mentions at or before its target and at or after itself |
| `LoopRanges.CarriedApart` | vm/jit/RegisterAllocator.c:458-496 | Two such temporaries carried at one instruction do not share a register |
| `PathMeaning.DeadSlot` | vm/jit/RegisterAllocator.c:236-247 | Where a slot is not live, any value in it gives the same answers, with the same heap, and one run comes back exactly when the other does |
| `PathMeaning.SlotMatters` | vm/jit/x64/CodeGeneratorX64.c:189-195 | In every state of every run a temporary still holds nil, is carried, or is not live |
| `PathMeaning.UnscannedDecidesNothing` | vm/jit/x64/CodeGeneratorX64.c:2649-2653 | Under the condition of CollectorCovers: in every state of every run, what a slot outside its range is overwritten with changes no answer, unless it held nil |
| `LoopFindings.LateStart` | vm/jit/x64/CodeGeneratorX64.c:2649-2653 | A failing code: a temporary set at the end of a loop is carried over the send at its top, before its first mention |
| `LoopFindings.LateRun` | vm/jit/x64/CodeGeneratorX64.c:2649-2653 | A run of it: the second time at the send the answer depends on the slot, whose range starts later |
| `LoopFindings.CrossedEnd` | vm/jit/RegisterAllocator.c:248-256 | A failing code: of two loops that cross, the second does not widen a range that only the first did |
| `LoopFindings.TopEnd` | vm/jit/RegisterAllocator.c:236-247 | A failing code for registers: a temporary read at the top of a loop only has a range that ends there |

## Findings

Properties the code or its documentation promises and does not have. Each is a lemma with the input or
run that fails, beside the exact condition under which the property holds.

- A callee's temporaries are not nil in its inlined copy: the inline area is shared by all sites and
  never cleared (`InlineStale.StaleTemporary`). Exact condition: `InlineTemps.WrittenFirstIgnoresEntry`
  and `InlineTemps.StaleTemporariesTell`.
- A callee's String literal loses its identity when the caller's frame holds an equal one
  (`InlineDiffers.StringGivesWay`). Exact condition: `InlineDiffers.StandsForItself`.
- An inherited method that names a variable is inlined with the receiver's layout and called with its
  owner's (`InlineDiffers.VariableMoves`). Exact condition: `InlineDiffers.VariableReads`.
- A retirement is lost when a miss grows the cell between the walk's load and its compare-and-swap
  (`InlineCacheAgreement.LostRetirement`). Exact condition, per step: `InlineCacheAgreement.StepAgrees`.
- The byte gauge of the inline caches loses overlapping updates for good
  (`InlineCacheGauge.LostUpdate`). Exact condition: `InlineCacheGauge.GaugeExact`. The header's remark
  that it is exact under a single worker is `InlineCacheGauge.OneWorker`.
- A sleep with an earlier deadline does not wake a poller already in epoll_wait
  (`SchedulerDeadlines.SleepUnserved`). Exact condition: `SchedulerDeadlines.CoveredSinceWait`.
- An object kept for its finalizer is left marked and hides what it refers to from the next mark phase
  (`FullCollection.FinalizedHidesChild`). Exact conditions: `FullCollection.NextStartsClear` for the
  marks, `Marking.MarksAllIff` and `FullCollection.LostIff` for the harm.
- bigIntGcd writes one limb more than the header's min(na, nb) in some cases
  (`BigIntGcd.MinTooSmall`). Exact condition: `BigIntGcd.MinSuffices`; always enough:
  `BigIntGcd.OneMoreSuffices`.
- A dead object kept for its finalizer may refer to objects freed by the same sweep
  (`FullCollection.FinalizedLosesChild`). Exact condition: `FullCollection.KeptClosedIff`.
- The collector's range of a temporary misses a value carried around a loop to before the temporary's
  first mention (`LoopFindings.LateStart`, `LoopFindings.LateRun`), or around loops that cross
  (`LoopFindings.CrossedEnd`). Exact condition: `LoopRanges.CollectorCovers`, with
  `LoopRanges.NestedCovers` and `LoopRanges.AssignedCovers` for code as compilers write it.
- The register range is not widened over loops (`LoopFindings.TopEnd`), as the allocator's comment
  says. Exact condition for it to cover carried values: `LoopRanges.RegistersCover`.

## Left out

- Large integers: signs, and the Smalltalk side (LargeInteger). Inputs are values, so an output that is also an input, which bigIntAdd and bigIntSub allow, is not modelled; bit-or of words with no common bit is written as a sum.
- BigIntText.ToString: says nothing of what lies in the buffer beyond the text it wrote.
- BigIntDiv.DivMod: says nothing of the limbs of q and r between the results and na and nb; those from there on are untouched.
- Bytecode: displacements are 32 bits wide in the stream and unbounded in the inliner's model; source positions (descriptors) are not carried. A send is one opaque step of the world, which answers or does not come back.
- Inliner.OptimizeMethod: reads each cell once, as a value; what the cells become while the method is compiled is the inline-cache model's subject. Redefinition of an inlined callee's class (the registration of guards for invalidation) is not modelled.
- Inline caches: emitted machine code, the statistics other than the byte gauge, and the memory order of the load and the publish, which are taken as single steps in one order.
- Register allocation: the growth of the variable tables, the 16-bit limit on their size, and frame offsets of spilled variables. The back ends, which write registers through to the frame and forget them at sends and at the targets of backward jumps, so that a register given to another variable is loaded again.
- LoopRanges.CollectorCovers: is about temporaries, not about the variables made for outer contexts and associations; of a stack map's tests it models the range and not the flag for slots written so far, nor the polls at backward jumps, which drop the upper bound.
- Scavenger.Collector.Scavenge: takes the roots as a sequence of values; which words of stacks, handles and native code are roots, and the plausibility tests on stack slots, are not modelled. Promotion always finds room; the path of a failed promotion is not modelled. An object's shape is read from the model's object and not from its class, which may itself have moved.
- MinorCollection.CollectYoung: adds the remembered objects to the heap's set after the walk, where the code adds each as it is found; the set walked is detached either way. Allocation between two scavenges is not modelled.
- Marking.Marker.MarkRoots: as for the scavenger, the roots are given.
- Sweeping.GcSweep: stops before the finalizers are sent; madvise and the page index are not modelled.
- FullCollection.CollectedOld: young marks, which a scavenge clears beforehand, are not part of it.
- FreeList.Serve: one page; further pages are added with AddFreeSpace.
- Safepoint.CollectorRunsAlone: the safepoint lock and condition are taken as such: a step is one hold of the lock. collectGarbage, the path of the garbage-collection primitive, scavenges and sweeps without the handshake, as its comment says (vm/memory/Heap.c:611-623); it is no step of the model.
- SchedulerRuns.NoLostWakeup: a descriptor has at most one waiter, a fiber waiting for a timer, a descriptor or a signaller is resumed by that source only, and no fiber terminates another.
- SchedulerTimers.ServeTimers: the lock held over the loop is taken as such, and a fiber terminated meanwhile, whose wake-up is a no-op, does not occur.
- SchedulerDeadlines.CoveredIff: time is an integer; the rounding of the timeout up to milliseconds is not modelled, nor is the limit of 64 events per wait.
- SchedulerRuns.NeverAllAsleep: fairness is not modelled, so that nothing is said about when a step is taken.
- MessageRoundTrip.RoundTrip: both isolates have the classes of the message by name and with the same shapes.
- MessageReader.Deserialize: names are sequences of bytes; the C code looks a class up by the name up to its first zero byte. Running out of memory is not modelled.
- Parsing and compiling Smalltalk, the machine-code back ends, primitives, exceptions, images and the operating-system layer.
