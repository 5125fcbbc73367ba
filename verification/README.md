# Verification of the recorder's queues and result pipeline

A Dafny model, with proofs, of the two families of code in this repository that carry its results.

**The single-producer single-consumer stack** (`include/readerwriterqueue.h`, `include/atomicops.h`,
`include/readerwritercircularbuffer.h`). `QueueModel.dfy` is the queue as a step machine: one program
counter per thread, one shared access per step, any interleaving. `QueueInvariant`, `QueueWrites`,
`QueueSteps` and `QueueTheorems` prove its invariant and promises; `QueueLimits` finds exactly which
sizes keep them. `QueueHeap` is the object itself, blocks linked by references and updated in place;
`QueueThreads` is the code of both threads on that object, each step proved to be the machine's step;
`QueueDestructor` is the destructor. `Semaphore` has the machine and the in-place code, with its spin
and undo loops, of the lightweight semaphore; `BlockingQueue` and `CircularBuffer` compose it with the
queue and with a ring of slots. `Bits` holds bitwise operations, powers of two and the rounding code.

**The recorder's result pipeline** (`src/zmq_receiver.cpp`, `include/SpectrumTransport.hpp`,
`make_class_onoff.py`). `Crc32c` is the checksum of every message, `SequenceFilter` the duplicate filter,
`SpectrumWriters` the byte-limited write queues, `Continuum` the aggregator, `Reduction` the offline
reduction over real numbers.

Assumptions. Interleaving is sequentially consistent; fences do nothing. There is one producer and one
consumer per queue. The block size `MAX_BLOCK_SIZE` is a power of two, at least 2, as the constructor
asserts. The kernel semaphore is a counter whose wait may give up at any time. An element of type `T` is
a value; constructing and destroying are changes between a raw and a live cell.

Where the code and its own documentation disagree, the model follows the code:

- the queue's constructor comment promises room for `size` elements for every size; sizes 0 and from 2^63
  on break the queue (`QueueLimits.SizeExact`);
- the README says an incomplete continuum integration times out after five seconds; because the clean-up
  runs at most once a second, it may stay for just under six (`Continuum.LingersPastTimeout` is a run,
  `Continuum.FiveSecondsExact` says when the five seconds hold);
- `signal(count)` asserts only `count >= 0`; `signal(0)` can break the protocol
  (`Semaphore.SignalKeepsIff`). The repository's own calls all signal 1;
- the filter's comparison with `previous.sequence + 1` wraps at the last 64-bit number, after which a
  duplicate passes (`SequenceFilter.PassesAdvancesIff`) and a gap of 2^64 - 1 is counted
  (`SequenceFilter.TopTwiceCounted`).

## Model

The methods of `QueueHeap` and `QueueThreads` that make one access each have no row of their own:
`QueueThreads.Threads.RunThreads` runs them all.

| member | source | states |
|---|---|---|
| Bits.CeilToPow2 | include/readerwriterqueue.h:654-666 | the bit-smearing loop on a 64-bit word returns the rounding `RoundedUp`: the least power of two not below its argument for 1 to 2^63, and 0 for 0 and for anything larger |
| Bits.LeastPow2Above | include/readerwriterqueue.h:654-666 | the rounding is a power of two and not below its argument |
| Bits.LeastPow2IsLeast | include/readerwriterqueue.h:654-666 | no smaller power of two would do |
| Bits.OrShifted | include/readerwriterqueue.h:658-663 | or-ing in the shifted word doubles the run of leading ones |
| Bits.AndMaskWraps | include/readerwriterqueue.h:556 | incrementing an index and masking it with a power of two minus one is the next slot of the ring |
| QueueTheorems.QueueSafety | include/readerwriterqueue.h:285-489 | for every size that fits and every interleaving: no assert fails, no cell is read, destroyed or constructed over wrongly; what was taken out is a prefix, in order, of what was put in; a refused removal saw the queue empty at an instant of its call; a refused try_enqueue saw at least size elements at an instant of its call; enqueue allocates only after at least size elements were seen; a peek that is not null has a pointer; a successful call has added or returned the last element of the respective history |
| QueueTheorems.CallEffect | include/readerwriterqueue.h:285-489 | over every run, the consumer's last call has taken nothing out until it returns, then exactly the one element it hands over if it is a removal that answers true, and nothing otherwise |
| QueueTheorems.EnqueueEffect | include/readerwriterqueue.h:538-644 | over every run, the producer's last call has added exactly its argument if it answers true, and nothing otherwise |
| QueueTheorems.PeekStable | include/readerwriterqueue.h:384-421 | a pointer returned by peek is to the oldest element; after any further run, as long as the consumer has not destroyed it, that same cell is constructed and holds it, and the next element removed is that one |
| QueueTheorems.RunOldest | include/readerwriterqueue.h:379-384 | the oldest element stays in its cell through every run that removes nothing |
| QueueTheorems.EnqueueAlwaysFits | include/readerwriterqueue.h:603-632 | enqueue, which may allocate, is refused only if a malloc fails |
| QueueTheorems.ProducerWaitFree | include/readerwriterqueue.h:538-644 | a call of the producer returns within 11 steps of its own thread, however the consumer's steps and calls, any number of them, fall in between |
| QueueTheorems.ConsumerWaitFree | include/readerwriterqueue.h:285-489 | a call of the consumer returns within 14 steps of its own thread, however the producer's steps and calls, any number of them, fall in between |
| QueueLimits.SizeExact | include/readerwriterqueue.h:105-161 | for every 64-bit size: all runs are free of faults if and only if the size is at least 1 and below 2^63 |
| QueueLimits.ZeroFails | include/readerwriterqueue.h:116 | for size 0 a run of two enqueues and two removals loses an element and fails the assert of line 351 |
| QueueLimits.LosesElement | include/readerwriterqueue.h:578-601 | reusing the one-cell block leaves its front and tail index equal although it holds an element |
| QueueLimits.HugeFails | include/readerwriterqueue.h:116 | for a size from 2^63 on the first enqueue constructs outside the block |
| QueueTheorems.RunGood | include/readerwriterqueue.h:285-644 | the invariant of every reachable state: blocks from front to tail hold the contents in order, later ones are not empty, inner ones full, blocks outside are empty, both shadow indices lag the true ones by no more than they may, every cell is raw or live as the indices say, and each thread's registers fit the line it is at |
| QueueTheorems.ProducerStepKeeps | include/readerwriterqueue.h:538-644 | every single access of inner_enqueue keeps the invariant, while a block is spliced in as well |
| QueueTheorems.ConsumerStepKeeps | include/readerwriterqueue.h:285-489 | every single access of try_dequeue, pop and peek keeps the invariant |
| QueueTheorems.FullRing | include/readerwriterqueue.h:117-123 | when the tail block is full and no free block is left, at least size elements are held |
| QueueTheorems.BlockCountSuffices | include/readerwriterqueue.h:118-123 | the block-count formula leaves room for size elements besides one block |
| QueueTheorems.InitialExact | include/readerwriterqueue.h:115-147 | one block of the least power of two above size or, when that is more than twice the maximum, the least number of maximal blocks with room for size elements besides one block |
| QueueTheorems.BlockSizes | include/readerwriterqueue.h:603-612 | over every run no block is larger than the maximum or than the first blocks |
| QueueTheorems.ProducerSizes | include/readerwriterqueue.h:603-612 | a block is added exactly by an allocation that succeeds: as large as the largest there, or twice that while it is below the maximum; no other access changes a block's size |
| QueueTheorems.InitGood | include/readerwriterqueue.h:105-161 | the constructor's state satisfies the invariant |
| QueueTheorems.SawEmptyMeans | include/readerwriterqueue.h:326-373 | the consumer's record of emptiness is a true statement about an instant of the run since its call began |
| QueueTheorems.SawFullMeans | include/readerwriterqueue.h:571-636 | the producer's record of fullness is a true statement about an instant of the run since its call began |
| QueueTheorems.EmptySeen | include/readerwriterqueue.h:312-326 | a consumer that goes on to compare with the tail block and will find it its own has just seen an empty queue |
| QueueTheorems.ProducerControl | include/readerwriterqueue.h:552-643 | the only ways into each refusal of inner_enqueue, and that only a call that returns true adds an element, its argument |
| QueueTheorems.ConsumerControl | include/readerwriterqueue.h:308-375 | the only way into a refusal of a removal, and that only a removal that returns true takes an element out, the one it returns |
| QueueInvariant.ConstructBlock | include/readerwriterqueue.h:560-565 | the cell at the tail index of a block with room is raw memory, and constructing there keeps the block in order |
| QueueInvariant.PublishBlock | include/readerwriterqueue.h:568 | the store of the tail index adds exactly the constructed element |
| QueueInvariant.ReadFront | include/readerwriterqueue.h:557 | the comparison with the true front index tells exactly whether the block is full, that with the shadow one whether it was full when last looked at |
| QueueInvariant.ReadTail | include/readerwriterqueue.h:312 | the comparison with the true tail index tells exactly whether the block is empty |
| QueueInvariant.DestroyBlock | include/readerwriterqueue.h:317-319 | the cell at the front index holds the oldest element |
| QueueInvariant.RemoveBlock | include/readerwriterqueue.h:321-324 | the store of the front index removes exactly the oldest element |
| QueueWrites.WriteSplice | include/readerwriterqueue.h:622 | linking the new block in keeps the ring and its contents |
| QueueWrites.WriteMoveTailBlock | include/readerwriterqueue.h:601 | moving the tail block adds exactly the element waiting in the new one |
| QueueWrites.WriteMoveFrontBlock | include/readerwriterqueue.h:356 | moving the front block past an empty block changes no contents |
| QueueWrites.WriteRemove | include/readerwriterqueue.h:324 | the store of the front index drops the first of the contents |
| QueueWrites.ConsumerStable | include/readerwriterqueue.h:552-632 | what the consumer relies on survives every write of the producer |
| QueueWrites.ProducerStable | include/readerwriterqueue.h:308-369 | what the producer relies on survives every write of the consumer |
| QueueHeap.ReaderWriterQueue.constructor | include/readerwriterqueue.h:105-157 | for every 64-bit size, builds in memory exactly the ring of blocks the machine starts from |
| QueueHeap.MakeRing | include/readerwriterqueue.h:125-143 | the loop links distinct new blocks into one ring |
| QueueHeap.BlockNode.constructor | include/readerwriterqueue.h:713-717 | a new block: indices 0, no successor, raw cells, the mask |
| QueueThreads.Threads.RunThreads | include/readerwriterqueue.h:285-644 | the two threads' code, one access at a time and in place, under any schedule of calls and steps: it ends in the state of the machine's run, with every block and register as there |
| QueueThreads.Threads.Destruct | include/readerwriterqueue.h:204-228 | over the life of a queue every element put in is destroyed exactly once, by a removal or here; afterwards every cell is raw, and every block has been freed exactly once |
| QueueDestructor.Destruct | include/readerwriterqueue.h:204-228 | destroys exactly the contents, oldest first, and frees each block once |
| QueueDestructor.FreeRing | include/readerwriterqueue.h:209-227 | the loop round the ring meets every block once and stops |
| QueueDestructor.DestroyItems | include/readerwriterqueue.h:217-221 | the loop from the front to the tail index destroys exactly the items of the block |
| Semaphore.SemaphoreSafety | include/atomicops.h:678-756 | over every run with signal(count), count at least 1: the count is never below -1, permits are conserved and never overdrawn, a registered waiter has exactly one kernel token, posted or about to be, when it has a permit and none otherwise, and no token outlives a call |
| Semaphore.SignalKeepsIff | include/atomicops.h:747-756 | a signal keeps the protocol if and only if it brings a permit or finds the count not negative |
| Semaphore.SignalZeroBreaks | include/atomicops.h:747-756 | signal(0) at a registered waiter: the wait returns true with a permit nobody gave, and the count stays at -1 |
| Semaphore.NoLostWakeup | include/atomicops.h:697-717 | a waiter in the kernel with a permit there can be woken as soon as the signaller is out of signal; a failed turn of the undo loop means a post is in flight |
| Semaphore.WaitOutcome | include/atomicops.h:678-745 | a wait that returns true takes exactly one permit; one that returns false does so at an instant when there is none |
| Semaphore.PatientWait | include/atomicops.h:678-719 | a wait with a positive or negative time-out does not return false, and is not undone, unless its kernel wait is given up: finding no permit it goes on to the kernel wait |
| Semaphore.NeverSleeps | include/atomicops.h:678-735 | tryWait, and a wait with time-out 0, are never in the kernel wait |
| Semaphore.RunGood | include/atomicops.h:678-756 | the invariant of every reachable state of the semaphore |
| Semaphore.LightweightSemaphore.constructor | include/atomicops.h:722-725 | starts with the given count and no token |
| Semaphore.LightweightSemaphore.Signal | include/atomicops.h:747-756 | one access of signal; its assert holds |
| Semaphore.LightweightSemaphore.TryWait | include/atomicops.h:727-735 | takes a permit, or reports that the count was 0 |
| Semaphore.LightweightSemaphore.WaitWithPartialSpinning | include/atomicops.h:678-719 | spin loop, registration, kernel wait and undo loop under any interference: true with one permit taken, or false with none taken and none there |
| Semaphore.LightweightSemaphore.KernelWait | include/atomicops.h:697-703 | a kernel wait that ends with a token or gives up |
| Semaphore.LightweightSemaphore.Undo | include/atomicops.h:709-718 | the undo loop ends deregistered, or with the token that had come |
| Semaphore.LightweightSemaphore.WaitFor | include/atomicops.h:742-745 | after a wait that returned, the kernel semaphore holds no token and the count is the number of permits; a timeout has lost and kept nothing |
| BlockingQueue.BlockingSafety | include/readerwriterqueue.h:784-943 | every wait that succeeds is followed by a removal that succeeds, so the asserts of lines 865, 881, 900 and 938 hold on every run; order is kept; permits never exceed elements, and equal them between calls |
| BlockingQueue.GetAnswers | include/readerwriterqueue.h:861-938 | over every run, the last removal answers true if and only if it has taken one element out since it began, which is the one handed over and the last of those taken out, and false if and only if none; wait_dequeue never answers false; peek takes nothing and is null exactly when it answers false |
| BlockingQueue.PutAnswers | include/readerwriterqueue.h:784-850 | over every run, the last enqueue answers true if and only if it has added its argument since it began, and false if and only if it has added nothing |
| BlockingQueue.RefusedPutMeansFull | include/readerwriterqueue.h:784-812 | a refused try_enqueue means that at least size elements were held at an instant of the call |
| BlockingQueue.WaitsAnswerTrue | include/readerwriterqueue.h:874-903 | wait_dequeue, and a timed one whose time-out is not 0, answer true unless a kernel wait of theirs is given up |
| BlockingQueue.TryNeverSleeps | include/readerwriterqueue.h:861-871 | try_dequeue, pop and a timed wait of 0 never sleep |
| BlockingQueue.InnerRuns | include/readerwriterqueue.h:784-943 | the queue inside goes through a run of its own, so all its theorems hold of it |
| BlockingQueue.StepOk | include/readerwriterqueue.h:784-943 | every step keeps: elements held = permits + one about to be signalled + one whose permit the consumer has taken |
| BlockingQueue.RefusedMeansEmpty | include/readerwriterqueue.h:861-904 | a try_dequeue, pop or timed wait refused by the semaphore found nothing but at most an element not yet signalled |
| BlockingQueue.NoLostElement | include/readerwriterqueue.h:876-883 | a consumer asleep while something is held and the producer is between calls can always be woken |
| BlockingQueue.Balance | include/readerwriterqueue.h:784-943 | the equation between elements held, permits and what the threads hold |
| CircularBuffer.CircularSafety | include/readerwritercircularbuffer.h:99-299 | over every run, across any wrap of the 64-bit counters: no slot is constructed over, read or destroyed wrongly; elements come out in order; at most the capacity is held; free slots, items and what is in hand add up to the capacity; no assert of the semaphores fails; the two threads never sleep both |
| CircularBuffer.CapacityExact | include/readerwritercircularbuffer.h:34-51 | for every 64-bit capacity: all runs are free of faults and deadlock if and only if the capacity is at least 1 and below 2^63 |
| CircularBuffer.ZeroDeadlocks | include/readerwritercircularbuffer.h:34-38 | with capacity 0 a wait_enqueue and a wait_dequeue sleep for ever |
| CircularBuffer.RefusedStart | include/readerwritercircularbuffer.h:36 | from capacity 2^63 on, the semaphore's initial count is negative |
| CircularBuffer.Conservation | include/readerwritercircularbuffer.h:34-38 | free slots + available items + in hand = maxcap |
| CircularBuffer.NeverBothAsleep | include/readerwritercircularbuffer.h:123-210 | producer and consumer are never both asleep without a token |
| CircularBuffer.PeekIsOldest | include/readerwritercircularbuffer.h:239-244 | a peek pointer is to the oldest element, constructed |
| CircularBuffer.RefusalsMean | include/readerwritercircularbuffer.h:99-225 | a refused or timed-out enqueue found every slot used or just being given back; a refused removal found no signalled element |
| CircularBuffer.PutAnswers | include/readerwritercircularbuffer.h:99-191 | over every run, the last enqueue answers true if and only if exactly its element has been put in since it began, false if and only if nothing has; wait_enqueue never answers false |
| CircularBuffer.GetAnswers | include/readerwritercircularbuffer.h:193-253 | over every run, the last removal answers true if and only if it has taken one element since it began, for a dequeue the one handed over, and false if and only if none; wait_dequeue never answers false; peek takes nothing and answers whether it has a pointer |
| CircularBuffer.WaitsAnswerTrue | include/readerwritercircularbuffer.h:123-229 | a call that waits, for ever or with a time-out other than 0, answers true unless a kernel wait of it is given up |
| CircularBuffer.TryNeverSleeps | include/readerwritercircularbuffer.h:99-253 | the try calls and timed ones with time-out 0 never sleep |
| CircularBuffer.PeekNull | include/readerwritercircularbuffer.h:239-244 | peek is null exactly when no element has been signalled |
| CircularBuffer.StepOk | include/readerwritercircularbuffer.h:99-299 | every step keeps the invariant of slots, counters and semaphores |
| CircularBuffer.IncrementWraps | include/readerwritercircularbuffer.h:274 | incrementing a counter, also past 2^64, moves its slot to the next of the ring |
| CircularBuffer.BlockingReaderWriterCircularBuffer.constructor | include/readerwritercircularbuffer.h:34-51 | for every 64-bit capacity: rounds it up and makes that many raw slots; the buffer's invariant holds when the capacity fits |
| CircularBuffer.BlockingReaderWriterCircularBuffer.InnerEnqueue | include/readerwritercircularbuffer.h:272-277 | in place: the element is added at the end and one item permit given |
| CircularBuffer.BlockingReaderWriterCircularBuffer.InnerDequeue | include/readerwritercircularbuffer.h:280-287 | in place: the oldest element comes out and one slot permit is given |
| CircularBuffer.BlockingReaderWriterCircularBuffer.InnerPop | include/readerwritercircularbuffer.h:294-299 | in place: the oldest element is destroyed and one slot permit given |
| CircularBuffer.BlockingReaderWriterCircularBuffer.ConstructItem | include/readerwritercircularbuffer.h:272-277 | constructs at the next slot, adding the element at the end |
| CircularBuffer.BlockingReaderWriterCircularBuffer.TakeItem | include/readerwritercircularbuffer.h:282 | takes the index of the next item |
| CircularBuffer.BlockingReaderWriterCircularBuffer.MoveOutItem | include/readerwritercircularbuffer.h:283-284 | moves the oldest element out |
| CircularBuffer.BlockingReaderWriterCircularBuffer.DestroyItem | include/readerwritercircularbuffer.h:285 | destroys the oldest element and no other |
| CircularBuffer.BlockingReaderWriterCircularBuffer.Destruct | include/readerwritercircularbuffer.h:66-71 | destroys every remaining element exactly once, oldest first; no slot stays constructed |
| Crc32c.SpectrumCrc32c | include/SpectrumTransport.hpp:24-41 | the byte loop with its table computes, for messages of every length, the bit-serial code of which CrcIsRemainder speaks |
| Crc32c.MakeTable | include/SpectrumTransport.hpp:25-34 | each of the 256 entries is eight steps of the bit loop on its index |
| Crc32c.LookUp | include/SpectrumTransport.hpp:38-39 | a table look-up and a shift are the eight bits of a byte fed one at a time |
| Crc32c.CrcIsRemainder | include/SpectrumTransport.hpp:24-41 | the code is the complement of the remainder of the message, first 32 bits complemented, times x^32, by long division over GF(2) by x^32 and the 17 lower terms of the generator of section 12.1 of RFC 3720, each power written out |
| Crc32c.PolynomialIsGenerator | include/SpectrumTransport.hpp:30 | the constant 0x82F63B78 holds exactly those terms, highest power in bit 0 |
| Crc32c.Division | include/SpectrumTransport.hpp:28-31 | feeding the register is long division, for every start value and message |
| Crc32c.BurstDetected | src/zmq_receiver.cpp:742 | bodies of equal length that differ only within four consecutive bytes have different codes |
| Crc32c.BitBurstDetected | src/zmq_receiver.cpp:742 | so do bodies that differ only within any 32 consecutive bits |
| Crc32c.FeedInjective | include/SpectrumTransport.hpp:38-39 | different registers stay different whatever is fed |
| Crc32c.FeedWord | include/SpectrumTransport.hpp:28-39 | feeding up to 32 bits is adding them as one word and stepping |
| Crc32c.StepUndone | include/SpectrumTransport.hpp:30 | a step of the register loses nothing |
| Crc32c.StepXor | include/SpectrumTransport.hpp:30 | a step of the register is linear |
| Continuum.RunOk | src/zmq_receiver.cpp:470-535 | over every run: each result is in exactly one of resident frames, written rows, duplicates, inconsistent and expired; each row is the sum of exactly continuum_inputs results of distinct subband and beam, of equal start and noise state, exposures within the tolerance of the row's and times within that of the frame's; every resident frame has at least 1 and fewer than continuum_inputs results; after every clean-up every frame is younger than six seconds |
| Continuum.FindFrameExact | src/zmq_receiver.cpp:449-468 | the probe of two neighbours finds a frame if and only if one in the whole map is within tolerance; it is the latest such one, and at most two are |
| Continuum.AccumulateOk | src/zmq_receiver.cpp:470-516 | accumulate keeps the invariant in each of its branches |
| Continuum.AccumulateBalanced | src/zmq_receiver.cpp:470-516 | no result is lost or counted twice by any branch |
| Continuum.MeetsFrame | src/zmq_receiver.cpp:483-515 | a result within 1000 ns of a frame evicts it when start or noise state differ or the exposures are more than 0.000001 s apart, is rejected alone when its input is there already, and otherwise its power is added; the frame is written, with its own start, exposure and noise state, exactly when that completes it |
| Continuum.MeetsNone | src/zmq_receiver.cpp:474-481 | a result within 1000 ns of no frame starts one, made at that instant and holding it alone, or is a row when one input is expected |
| Continuum.HasExact | src/zmq_receiver.cpp:471-494 | the set of input identities tells exactly whether a result of the same subband and beam is there |
| Continuum.InsertSpaced | src/zmq_receiver.cpp:474-481 | a new key keeps all keys more than the tolerance apart |
| Continuum.SummedOk | src/zmq_receiver.cpp:494-505 | adding a result keeps power, inputs and count those of the results summed |
| Continuum.InputIdExact | src/zmq_receiver.cpp:471-472 | the input identity is the same if and only if subband and beam are, because validation bounds the beam |
| Continuum.FreshKept | src/zmq_receiver.cpp:522-533 | the clean-up keeps exactly the frames made less than 5 s ago, in order |
| Continuum.DiscardOk | src/zmq_receiver.cpp:518-535 | rate-limited or not, the call keeps the invariant and leaves every frame younger than six seconds |
| Continuum.FiveSecondsExact | src/zmq_receiver.cpp:518-535 | the documented five seconds: after every run, a clean-up call leaves only frames younger than five seconds if and only if one input is expected, or a second has passed since the last clean-up, or none has |
| Continuum.LingersPastTimeout | src/zmq_receiver.cpp:519-521 | a run of one result and a clean-up, after which every call less than a second later leaves a frame at least five seconds old |
| Continuum.HeaderValidates | src/zmq_receiver.cpp:621-640 | the bounds the aggregator relies on are exactly what header validation lets through in continuum mode |
| Continuum.ContinuumWorker.constructor | src/zmq_receiver.cpp:445-447 | an empty map |
| Continuum.ContinuumWorker.FindContinuumFrame | src/zmq_receiver.cpp:449-468 | the latest frame within tolerance, or none if there is none |
| Continuum.ContinuumWorker.AccumulateContinuum | src/zmq_receiver.cpp:470-516 | the in-place update is that of the ledger |
| Continuum.ContinuumWorker.EraseExpired | src/zmq_receiver.cpp:522-533 | the erasing loop leaves exactly the unexpired frames |
| Continuum.ContinuumWorker.DiscardExpiredContinuumFrames | src/zmq_receiver.cpp:518-535 | the in-place clean-up is that of the ledger; no frame is six seconds old after it |
| SpectrumWriters.WritersKeepOrder | src/zmq_receiver.cpp:367-412 | under every interleaving of receivers and writers, for each file: attempted, then in flight, then queued jobs are exactly the accepted ones in order; all attempts are by the file's one writer; every queue's byte count is the sum of its payloads and within 256 MiB |
| SpectrumWriters.ActionExact | src/zmq_receiver.cpp:367-410 | after every run, an offered job is accepted and queued last exactly when its queue is empty or the payloads with it are at most 256 MiB, and dropped with no other effect otherwise; a writer takes its oldest job and attempts the one it holds |
| SpectrumWriters.RunOk | src/zmq_receiver.cpp:367-412 | the same for every writer's lane, in every reachable state |
| SpectrumWriters.PayloadFits | src/zmq_receiver.cpp:621-640 | a validated payload is at most 256 MiB, and exactly that for the largest channel count, which is why an empty queue may skip the budget test |
| SpectrumWriters.OfferOk | src/zmq_receiver.cpp:374-391 | enqueuing keeps the byte count exact and within the budget |
| SpectrumWriters.PopOk | src/zmq_receiver.cpp:407-409 | the subtraction never underflows |
| SpectrumWriters.WriterSpread | src/zmq_receiver.cpp:262-267 | the subbands of a window and beam share a writer if and only if they are 8 apart |
| SpectrumWriters.SpectrumWriteQueue.Enqueue | src/zmq_receiver.cpp:373-391 | appends the job, or drops it only when the queue is not empty and would exceed the budget |
| SpectrumWriters.SpectrumWriteQueue.Dequeue | src/zmq_receiver.cpp:405-409 | takes the oldest job and subtracts its payload |
| SequenceFilter.MaximaExact | src/zmq_receiver.cpp:769-800 | when timestamps increase exactly with sequence numbers, what passes is the strict running maxima of the arrivals, if and only if nothing but 0 follows the last 64-bit number |
| SequenceFilter.PassesExact | src/zmq_receiver.cpp:774-787 | on any stream: after a number other than the last 64-bit one a message passes if and only if its number or its time is larger; after the last one if and only if its number is not 0 or its time is larger |
| SequenceFilter.PassesAdvancesIff | src/zmq_receiver.cpp:774-787 | what passes after a message always advances in sequence or time if and only if that message's number is not the last 64-bit number |
| SequenceFilter.WrapPassesDuplicate | src/zmq_receiver.cpp:774 | the same message with the last 64-bit number passes twice |
| SequenceFilter.PassedAdvances | src/zmq_receiver.cpp:769-800 | on streams without that number, consecutive messages that pass strictly advance |
| SequenceFilter.PassedPlusGaps | src/zmq_receiver.cpp:774-785 | when timestamps increase exactly with sequence numbers, passed messages plus the gaps counted before them add up to largest minus first plus one, if and only if nothing but 0 follows the last 64-bit number |
| SequenceFilter.TopTwiceCounted | src/zmq_receiver.cpp:774-784 | the last 64-bit number received twice counts 2^64 - 1 missing messages where none is |
| SequenceFilter.GapsTelescope | src/zmq_receiver.cpp:774-785 | gap sizes and count of any strictly increasing stream add up to its span |
| SequenceFilter.Receiver.Receive | src/zmq_receiver.cpp:769-800 | per key, the in-place map lets pass exactly what the stream alone would: the first message, and then what is later or larger than the last that passed (after the last 64-bit number: later or not 0); a gap is counted for a number more than one ahead, a duplicate for what is dropped |
| Reduction.ReductionExact | make_class_onoff.py:249-404 | if every row of NOISE d with exposure w holds gain x (Tsys + d x Tcal + source) x w, in any number, order and with any gaps, integration and diode calibration return exactly the source and the system temperature for XX and YY, and the means of both for Stokes I |
| Reduction.ReceptorExact | make_class_onoff.py:343-404 | the same for one receptor, with the system temperature |
| Reduction.IntegrationExact | make_class_onoff.py:249-316 | told by the columns alone: rows with a positive finite EXPOSURE (or none in the table) and NOISE 0, or 1, and no others, make the averages of that state; each finite channel is the sum of the values over the sum of the exposures, NaN without any; row counts, total exposures, earliest start and latest end are those of the same rows |
| Reduction.UsedExact | make_class_onoff.py:256-276 | which rows enter the average of a diode state, as an if-and-only-if on EXPOSURE and NOISE |
| Reduction.CalibratedIff | make_class_onoff.py:347-404 | a channel is calibrated if and only if on, off and diode power are finite, the off power is positive and the diode raises it |
| Reduction.SelectionExact | make_class_onoff.py:375-404 | which selections are refused, and that Stokes I is the mean of the receptors exactly where both are finite |
| Reduction.MeanOfSteady | make_class_onoff.py:278-303 | integration recovers the power exactly from any rows and exposures |
| Reduction.MeanFiniteIff | make_class_onoff.py:300-303 | a mean is NaN if and only if no row that counts is finite in the channel |
| Reduction.IntegrateSdfits | make_class_onoff.py:238-316 | the accumulation loop returns what IntegrationExact says of the columns |
| Reduction.AddChannels | make_class_onoff.py:282-285 | only finite channels of one diode state are added to |
| Reduction.CountRow | make_class_onoff.py:286-294 | row count, exposure and time span of one row |
| Reduction.SmoothedIsMean | make_class_onoff.py:437-441 | a smoothed channel is NaN if and only if its window holds no finite one, and otherwise within any bounds of the finite ones: a mean with positive weights |
| Reduction.SmoothExact | make_class_onoff.py:426-443 | a smoothed channel times the sum of the kernel entries that meet finite channels is the sum of those entries times those channels, entry m meeting channel i + half the length - m; a kernel longer than the spectrum is refused, one of a single channel changes nothing |
| Reduction.HanningExact | make_class_onoff.py:410-411 | Hanning on three finite neighbours a, b, c is a/4 + b/2 + c/4 |
| Reduction.BoxcarExact | make_class_onoff.py:412-415 | boxcar is the plain mean of the finite channels of its window, NaN without any |
| Reduction.MethodsExact | make_class_onoff.py:407-436 | which methods are refused for which spectra, and that none and boxcar 1 change nothing |
| Reduction.SmoothKeeps | make_class_onoff.py:426-443 | smoothing by any method keeps constants and length |
| Reduction.KernelsProper | make_class_onoff.py:407-423 | every kernel returned is positive, symmetric, normalised and of odd length; even or non-positive boxcar widths are errors |

## Left out

- Weak memory: reordering, fences, cache lines, alignment and padding.
- Exceptions thrown by element constructors and assignments, move construction, move assignment and swap
  (documented as not safe to use concurrently), the debug `ReentrantGuard`, `emplace` as distinct from `enqueue`.
- A `malloc` failure in the constructors, which aborts; one inside `enqueue` is modelled.
- `MAX_BLOCK_SIZE` of 2^63, for which `MAX_BLOCK_SIZE * 2` wraps.
- `size_approx` and `max_capacity`, which only read.
- BlockingQueue.BlockingSafety: assumes that fewer than 2^63 elements are held at any instant; the queue is modelled on values, its two parts being objects of their own in `QueueHeap` and `Semaphore`.
- Semaphore.SemaphoreSafety: assumes that fewer than 2^63 permits are outstanding at any instant, the range of the 64-bit count, and one waiting thread.
- Platform variants of the kernel semaphore, and fairness of the scheduler: nothing is claimed about when a woken thread runs.
- Gap and duplicate warnings, which are logged only for event counts that are powers of two; the gap sizes are counted here for every event.
- CircularBuffer.BlockingReaderWriterCircularBuffer.InnerEnqueue: as in `InnerDequeue` and `InnerPop`, the other thread stands still during the call; interleavings are covered by `CircularBuffer.CircularSafety` and by the methods for the single accesses.
- The circular buffer's two semaphores appear in its object as part of the ghost state; their own in-place code is in `Semaphore`.
- ZeroMQ sockets, thread start-up and CPU binding, logging, configuration loading.
- The hash tables of `SequenceKey` and `BandKey`, which are maps here, and CFITSIO: a write is an attempt in a history.
- The bounded input queue of the continuum worker, a plain capacity test.
- Duplicates across ports: each receiver thread has its own map.
- Floating-point rounding, and the Gaussian's `exp`: any positive symmetric normalised kernel of odd length stands for it; its `sigma` check and radius are not modelled.
- DATA cell decoding, frequency axes, velocities, FITS headers, command lines and plots.
- `include/VDIF.hpp`, `include/Writer.h`, `include/time_utils.h`, `include/ObservationId.hpp`: field masks, formatting and calendar calls, which would add only easy members.
