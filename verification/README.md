# AXIOM NIC driver: a Dafny model

This project models the resource protocol of the AXIOM network interface driver, the data
structures it stands on and the codecs around it, and proves what every operation and every
interleaving of them keeps.

| file | models |
|---|---|
| `Axiom.dfy` | the constants and the option type the other files share |
| `SlotPool.dfy` | the value of an EVI queue manager: a LIFO free list, FIFO queues, held slots |
| `EviQueue.dfy` | `evi_queue.h`: those lists as links in one shared array |
| `RdmaProtocol.dfy`, `RdmaOwnership.dfy`, `RdmaTheorems.dfy` | RDMA transmit, acknowledgement and retry, with the LONG transmit path nested in it |
| `RdmaRuns.dfy` | whole sends: that they go through, and that what they took comes back |
| `RdmaWakeups.dfy` | the same protocol with its sleeping senders and their wake-ups |
| `RdmaFindings.dfy` | its failing inputs: the late store of an interrupted wait, an acknowledgement from node 255 |
| `RdmaRing.dfy` | the same atomic sections on the driver's arrays |
| `RdmaTokens.dfy` | the token check ioctl and the user library's wait loop |
| `RawReceive.dfy`, `RawProofs.dfy`, `RawRing.dfy` | RAW reception: NIC, interrupt, kthread, readers, flush |
| `RawRuns.dfy`, `LongRuns.dfy` | whole receives and flushes of the two receive machines, and the kthread's rounds |
| `RawReaders.dfy`, `LongReaders.dfy` | the two receive machines with their sleeping readers and their wake-ups |
| `RawWakeups.dfy` | how soon the kthread serves; the interrupt handler in two steps |
| `LongLayout.dfy` | LONG buffer addresses and the address lookup |
| `LongReceive.dfy`, `LongProofs.dfy`, `LongRing.dfy` | LONG reception: 32 hardware buffers and 32 software slots |
| `LongDelivery.dfy` | order of LONG messages per port |
| `LongFindings.dfy` | runs of it that cost the hardware a buffer or the driver a slot |
| `RawFraming.dfy` | RAW messages as 64-bit FIFO words, gather and scatter |
| `IfTopology.dfy` | pairing of interface endpoints |
| `EviAlloc.dfy` | the first-fit run allocator |
| `Ports.dfy` | open, bind, release |
| `Routing.dfy` | the routing cache and the hardware table |

## How the concurrent parts are modelled

The three protocols are machines over their atomic steps, with any number of threads, each with
its own program point, the mutexes as state, and arbitrary environment steps. A run is any
sequence of enabled steps. The head of each machine's file lists what counts as one step: what is
done under one spin lock, one mutex operation, filling in a slot together with transmitting it,
handling one acknowledgement, leaving an interrupted wait, the interrupt handler. The increment
and the wake-up inside `axiom_kthread_wakeup` are two steps. `InterruptSafeIff` and
`HandlerSafeIff` say exactly what the atomicity of the interrupted wait and of the handler is
worth. The ring classes (`RdmaRing`, `RawRing`, `LongRing`) carry out in place, on arrays and on
the linked queue manager, every atomic section that touches a status, a slot or a buffer, and are
proved to do to the arrays what the step does to the machine's state. Mutex operations and
availability checks have no method of their own there.

What is assumed of the environment: acknowledgements come from nodes other than 255 (see
`AckSafeIff` and `NullNodeAck` for what depends on it); the NIC writes LONG data only into buffers
flagged free, marks them busy and puts the 32-bit address it was given for the buffer into the
descriptor; it raises the RAW interrupt when its FIFO stops being empty; a FIFO hands over the
words that were put in; copies between user and kernel space are exact.

## Findings

- The retry limit of 1000 is never reached: `retries` has 8 bits. Over all runs the limit holds for
  an operation if and only if the counter can represent more than 1000 (`OperationRetries`, with
  `ResendsBounded` and `ResendsUnbounded`); `DriverNeverGivesUp` is the consequence.
- An interrupted wait must be atomic with respect to the acknowledgement: if the acknowledgement
  is noted between the check and the store of `ack_waiting`, the slot ends up with nobody
  (`InterruptSafeIff`); `InterruptRace` reaches such a state.
- An acknowledgement that claims to come from node 255, the mark of an idle slot, is taken as final
  for a slot with no operation in progress. It breaks the ownership if and only if nobody waited
  for the slot's last operation (`AckSafeIff`): `NullNodeAck` frees slot 0 twice,
  `NullNodeAckHarmless` is a run to the other case.
- A LONG message whose port is above 6 costs its hardware buffer for good (`LostExactly`,
  `LostForEver`); `BadPortLoses` loses any chosen buffer in four steps.
- The lookup of a LONG buffer's own address gives the buffer or nothing, never another one, for
  every size of the RDMA zone (`BufferRoundTrip`), and so the two pools stay in step for every size.
  If it gives nothing, which for zones up to 2^48 - 2^21 bytes means that 32 bits do not hold the
  address, a reader frees the slot and the buffer is never armed again (`UnaddressableLoses`), and a
  flush stops and leaves the slot on no list for good (`LeakedExactly`, `LeakedForEver`,
  `UnaddressableLeaks`). The buffers stay accounted for in all runs if and only if all of them can
  be found (`AccountedIffAddressable`).
- `axiom_rdma_wait` reads in front of its array only if some token is neither pending nor acked,
  and then always unless an ioctl fails. It reports a failed wait as OK: OK means that all tokens
  are acked if and only if no wait failed (`RdmaWait`; `FailedWaitIsOk` is an input).
- The kthread's wake-up at line 916 of `axiom_netdev_common.c` is sent only when the free list was
  not empty before. An RDMA sender that sleeps for want of a slot is left asleep beside a free one
  if and only if the kthread frees that slot while it sleeps (`TxSendersWokenIff`);
  `SenderLeftAsleep` gets there with all 256 slots in flight, and only the TX interrupt or the
  watchdog wakes it. LONG senders and readers of either kind are never left asleep
  (`LongSendersWoken`, `RawReadersWoken`, `LongReadersWoken`).
- The interrupt handler wakes the RAW kthread before it clears the interrupt. A wake-up is lost if
  and only if a message arrives at an empty FIFO in between, with a free slot, while the kthread
  already sleeps again, has not been woken and no thread is about to wake it (`HandlerSafeIff`,
  `NoLostWakeupTwoSteps`; `MissedWakeup` is a run). The watchdog, where it is enabled, wakes the
  kthread later (lines 1344-1351).
- A hardware routing entry that is neither below 8 nor the null interface, such as 8, reads as the
  empty mask, so the cache says "no route" where the hardware has one (`GetRouting`, `ReadInsane`).
- The 16-bit queue pointer limits a queue manager to 32768 slots (`InitialLinksChainIff`). The
  LONG lookup is right at every 32-bit address for all zones up to 2^48 - 2^21 bytes, and no
  larger bound would do (`LookupExact`, `ZoneMaxIsSharp`); `LookupRightIff` gives the exact
  condition for every size.
- The wake-up of the RDMA kthread at line 1239 is sent only when the free list was already not
  empty; nothing here relies on it.

## Model

| member | source | states |
|---|---|---|
| SlotPool.RunKeeps | include/evi_queue.h:133-244 | over every run of legal operations no slot is on two lists or twice on one, and free + queued + held is the number of slots |
| SlotPool.RunIsFifo | include/evi_queue.h:189-244 | over every run, what entered a queue is what left it followed by what is in it, in order |
| SlotPool.FlushKeeps | axiom_netdev_driver/axiom_netdev_common.c:478-492 | flushing a queue empties it into the free list, newest first, and changes no other list and no holder |
| SlotPool.Conservation | include/evi_queue.h:71-111 | free, queued and held slots add up to the size |
| EviQueues.InitialLinksChainIff | include/evi_queue.h:99-104 | the links written at initialisation are a free list of all slots in order if and only if there are at most 32768 of them |
| EviQueues.ChainUnique | include/evi_queue.h:145-244 | the links determine the lists: the arrays stand for one abstract state |
| EviQueues.EnqueueLaterRepresents | include/evi_queue.h:197-208 | the two link writes of an enqueue append to one chain and leave all others intact, tails included |
| EviQueues.EviQueue.constructor | include/evi_queue.h:71-111 | writes the initial links and empty queues; the manager then holds all slots free if and only if there are at most 32768 of them |
| EviQueues.EviQueue.FreePop | include/evi_queue.h:133-148 | takes the head of the free list, or NONE exactly if it is empty |
| EviQueues.EviQueue.FreePush | include/evi_queue.h:156-162 | puts a held slot at the head of the free list |
| EviQueues.EviQueue.Enqueue | include/evi_queue.h:189-209 | appends a held slot to one queue, keeping every chain and tail; without queues it does nothing |
| EviQueues.EviQueue.Dequeue | include/evi_queue.h:219-244 | takes the head of one queue, or NONE exactly if it is empty |
| EviQueues.EviQueue.Flush | axiom_netdev_driver/axiom_netdev_common.c:478-492 | the loop of a flush, its impossible branch never taken |
| RdmaOwnership.StepKeeps | axiom_netdev_driver/axiom_netdev_common.c:562-676 | every step of every thread and every acknowledgement keeps slot, buffer, mutex and token ownership |
| RdmaTheorems.SlotOwnership | axiom_netdev_driver/axiom_netdev_common.c:581-676 | in every reachable state each RDMA slot is in exactly one of: free, held by a sender, awaiting its acknowledgement, acknowledged with its waiter still there; free slots have destination 255; no slot has two threads |
| RdmaTheorems.BufOwnership | axiom_netdev_driver/axiom_netdev_common.c:1059-1138 | in every reachable state each LONG TX buffer is free, held by exactly one sender, or named by the callback of exactly one in-flight slot |
| RdmaTheorems.NoDoubleFree | axiom_netdev_driver/axiom_netdev_common.c:894-917 | no step pushes a slot or buffer already on its free list |
| RdmaTheorems.PaidBackOnce | axiom_netdev_driver/axiom_netdev_common.c:1006-1019 | over every run each slot and each buffer is pushed exactly as often as it was popped, less one while it is out: by the error path or by the callback, never both |
| RdmaTheorems.PopNeverFails | axiom_netdev_driver/axiom_netdev_common.c:562-591 | the two branches marked impossible after a checked pop are unreachable in every interleaving |
| RdmaTheorems.TokenExact | axiom_netdev_driver/axiom_netdev_common.c:597-601 | a token reads ACKED if and only if its operation had its final acknowledgement and the completions since are not a multiple of 2^32 |
| RdmaTheorems.DoneExactly | axiom_netdev_driver/axiom_netdev_common.c:829-896 | an operation becomes finally acknowledged by, and only by, an acknowledgement for its slot from the node it was sent to that reports success or finds 1000 retries used up |
| RdmaTheorems.AckExactly | axiom_netdev_driver/axiom_netdev_common.c:829-919 | what an acknowledgement from a real node does: nothing unless the slot's last operation is in progress and was sent to that node; a resend for an error before the 1000th retry; otherwise the waiting sender is told or, for nobody, the slot and the call's LONG buffer go back |
| RdmaTheorems.RetryExact | axiom_netdev_driver/axiom_netdev_common.c:843-879 | for one status: k error acknowledgements in a row are all answered by resends if and only if the counter cannot exceed 1000 or the retries stay within 1000 |
| RdmaTheorems.ResendsBounded | axiom_netdev_driver/axiom_netdev_common.c:843-879 | with a counter that can exceed 1000, in every run until the next transmit from the slot, whatever else happens, retries used plus resends made stay within 1000 |
| RdmaTheorems.ResendsUnbounded | axiom_netdev_driver/axiom_netdev_common.c:843-879 | with a narrower counter there is a run with any number of resends for one transmit |
| RdmaTheorems.ResendsExactly | axiom_netdev_driver/axiom_netdev_common.c:843-879 | some run without a new transmit from the slot has exactly n resends if and only if the counter cannot exceed 1000 or retries used plus n stay within 1000 |
| RdmaTheorems.OperationRetries | axiom_netdev_driver/axiom_netdev_common.c:607-610 | over all runs, a transmitted operation is resent at most 1000 times if and only if the counter can exceed 1000, and some run resends it 1000 times |
| RdmaTheorems.DriverNeverGivesUp | axiom_netdev_driver/axiom_netdev.h:107-119 | with the 8-bit counter no error acknowledgement ends an operation, in any run |
| RdmaRuns.TakesBuf | axiom_netdev_driver/axiom_netdev_common.c:1040-1063 | a LONG sender, at its first try or after it was blocked, gets the first free buffer if there is one |
| RdmaRuns.TakesSlot | axiom_netdev_driver/axiom_netdev_common.c:562-591 | a sender, at its first try or after it was blocked, gets the first free slot if there is one and NIC space |
| RdmaRuns.ChecksDecide | axiom_netdev_driver/axiom_netdev_common.c:562-579 | without a slot or NIC space, or without a LONG buffer, a sender blocks with the mutex free, and only then |
| RdmaRuns.TxGoes | axiom_netdev_driver/axiom_netdev_common.c:555-641 | from every state kept, an idle thread that finds mutex, slot and NIC space transmits: the first free slot holds its destination and call and a new operation |
| RdmaRuns.LongSendGoes | axiom_netdev_driver/axiom_netdev_common.c:1040-1125 | from every state kept, a LONG send that finds both mutexes, a buffer, a slot and NIC space goes through: the first free slot is in flight to the node and names the first free buffer |
| RdmaRuns.LongSendReturns | axiom_netdev_driver/axiom_netdev_common.c:894-919 | its acknowledgement leaves slots, buffers and threads as they were before the send |
| RdmaRuns.AsyncSendReturns | axiom_netdev_driver/axiom_netdev_common.c:894-919 | an asynchronous send and its acknowledgement leave slots and threads as they were |
| RdmaRuns.SyncSendReturns | axiom_netdev_driver/axiom_netdev_common.c:644-671 | so do a synchronous send, its acknowledgement and the sender's two steps after it |
| RdmaRuns.InterruptedSendReturns | axiom_netdev_driver/axiom_netdev_common.c:644-654 | so do a synchronous send interrupted before its acknowledgement |
| RdmaRuns.FailedSendReturns | axiom_netdev_driver/axiom_netdev_common.c:1117-1138 | a LONG send that fails, rejected or blocked for a slot, puts its buffer back |
| RdmaTheorems.InterruptSafeIff | axiom_netdev_driver/axiom_netdev_common.c:644-654 | the store that ends an interrupted wait keeps the ownership of all slots and buffers if and only if no acknowledgement has been noted; otherwise the slot is in none of the four states |
| RdmaFindings.InterruptRace | axiom_netdev_driver/axiom_netdev_common.c:644-654 | a reachable state, with the acknowledgement noted before the store, whose slot the store leaves in none of the four states |
| RdmaTheorems.AckSafeIff | axiom_netdev_driver/axiom_netdev_common.c:829-919 | an acknowledgement keeps the ownership (every slot in one state, every buffer with one owner, nothing twice on a free list) if and only if it is discarded, resent, for a slot with an operation in progress, or for one whose last operation was waited for; only node 255 can violate this |
| RdmaFindings.NullNodeAck | axiom_netdev_driver/axiom_netdev_common.c:829-836 | an acknowledgement from node 255 for any slot right after initialisation puts slot 0 twice on the free list |
| RdmaFindings.NullNodeAckHarmless | axiom_netdev_driver/axiom_netdev_common.c:829-896 | a run after which such an acknowledgement is final, for no operation in progress, and keeps the ownership |
| RdmaWakeups.LongSendersWoken | axiom_netdev_driver/axiom_netdev_common.c:1006-1019 | over every history no LONG sender sleeps while a LONG buffer is free |
| RdmaWakeups.TxSendersWokenIff | axiom_netdev_driver/axiom_netdev_common.c:910-917 | an event leaves no RDMA sender that sleeps for want of a slot beside a free one if and only if it is not an acknowledgement by which the kthread frees a slot while one sleeps |
| RdmaWakeups.TxSendersWoken | axiom_netdev_driver/axiom_netdev_common.c:562-671 | over every history without such an acknowledgement no RDMA sender sleeps for want of a slot while one is free |
| RdmaWakeups.SenderLeftAsleep | axiom_netdev_driver/axiom_netdev_common.c:910-917 | a history from the start, with all 256 slots in flight, that ends with a sender asleep beside a free slot |
| RdmaRings.AcksAreRun | axiom_netdev_driver/axiom_netdev_common.c:824-924 | any batch of acknowledgements is a run of the protocol and pushes only held slots |
| RdmaRings.ReleaseIsLegal | axiom_netdev_driver/axiom_netdev_common.c:659-668 | a sender that has collected its acknowledgement, or whose LONG send failed, holds what it pushes |
| RdmaRings.RdmaRing.constructor | axiom_netdev_driver/axiom_netdev_common.c:1519-1550 | the initialised arrays hold the protocol's initial state |
| RdmaRings.RdmaRing.TakeSlot | axiom_netdev_driver/axiom_netdev_common.c:581-585 | the pop in place is the protocol's pop; NONE exactly for an empty free list |
| RdmaRings.RdmaRing.Submit | axiom_netdev_driver/axiom_netdev_common.c:593-627 | filling in the status in place is the protocol's transmit step and returns the token value recorded for the operation |
| RdmaRings.RdmaRing.Collect | axiom_netdev_driver/axiom_netdev_common.c:659-660 | the waiter's stores are the protocol's step |
| RdmaRings.RdmaRing.StopWait | axiom_netdev_driver/axiom_netdev_common.c:649-653 | the store that ends an interrupted wait, in time or late, is the protocol's |
| RdmaRings.RdmaRing.ReleaseSlot | axiom_netdev_driver/axiom_netdev_common.c:665-671 | the push in place is the protocol's step; others are woken exactly if the list was empty, as in the machine with sleepers |
| RdmaRings.RdmaRing.TakeBuf | axiom_netdev_driver/axiom_netdev_common.c:1059-1069 | the pop of a LONG buffer in place is the protocol's; NONE exactly for an empty free list |
| RdmaRings.RdmaRing.ReturnBuf | axiom_netdev_driver/axiom_netdev_common.c:1129-1136 | the error path's push in place is the protocol's; others are woken exactly if the list was empty, as in the machine with sleepers |
| RdmaRings.RdmaRing.HandleOneAck | axiom_netdev_driver/axiom_netdev_common.c:829-919 | handling one acknowledgement in place, callback included, is the protocol's step; RDMA and LONG senders are woken exactly as in the machine with sleepers |
| RdmaRings.RdmaRing.RxDequeue | axiom_netdev_driver/axiom_netdev_common.c:818-924 | the receive loop over a batch of acknowledgements leaves the state after all of them |
| RdmaTokens.RdmaCheck | axiom_netdev_driver/axiom_netdev_common.c:702-734 | each token by the counter read for it: a pending one is ACKED exactly if its slot exists and the counter moved, INVALID exactly if it does not exist, and others are left; the result counts the ACKED tokens |
| RdmaTokens.RdmaWait | axiom_user_library/axiom_user_api.c:1459-1509 | terminates; if no ioctl fails it returns OK with all tokens ACKED if and only if every token was PENDING or ACKED, and otherwise runs off the array; a failed wait always gives OK, and OK means all tokens ACKED if and only if no wait made failed; an error if and only if the last check made failed |
| RdmaTokens.FailedWaitIsOk | axiom_user_library/axiom_user_api.c:1486-1504 | one pending token and an interrupted wait: OK, with the token still PENDING |
| RdmaTokens.LastPending | axiom_user_library/axiom_user_api.c:1481-1484 | finds the pending token after which none is pending, or -1 exactly if there is none |
| RawProofs.NoLostWakeup | axiom_netdev_driver/axiom_netdev_common.c:282-358 | in every reachable state, if the kthread sleeps while a message and a free slot are there, it is already woken, the interrupt is pending, or a thread is about to wake it |
| RawProofs.WokenKthreadServes | axiom_netdev_driver/axiom_kthread.c:23-47 | a woken kthread that runs alone has a slot for the message after exactly six or seven steps |
| RawWakeups.KthreadServes | axiom_netdev_driver/axiom_kthread.c:23-47 | in every run in which the kthread gets seven steps (fewer from a later point), whatever the others do in between, it comes to hold a slot for the message that is first in the FIFO now |
| RawWakeups.HandlerSafeIff | axiom_netdev_driver/axiom_netdev_common.c:143-175 | with wake-up and clearing as two steps, an event loses a wake-up if and only if it is an arrival at an empty FIFO between them with a free slot and the kthread asleep and unwoken |
| RawWakeups.NoLostWakeupTwoSteps | axiom_netdev_driver/axiom_netdev_common.c:143-175 | over every history of the two-step handler without such an arrival, a kthread asleep beside work has a wake-up coming |
| RawWakeups.MissedWakeup | axiom_netdev_driver/axiom_netdev_common.c:143-175 | a history from the start that leaves the kthread asleep with a message, a free slot and no wake-up |
| RawReaders.RawReadersWoken | axiom_netdev_driver/axiom_netdev_common.c:339-344 | over every history a RAW reader that sleeps beside a message on its port is about to be woken |
| RawProofs.CounterTellsWakeups | axiom_netdev_driver/axiom_kthread.c:27-58 | a kthread at its counter finds wake-ups since its last look unless their number is a multiple of 2^32; a sleeping one is woken for later ones |
| RawProofs.PortDelivery | axiom_netdev_driver/axiom_netdev_common.c:309-353 | for each port, what left its queue, followed by what is queued, in the kthread's hands and in the FIFO, is the arrivals for that port in order; port 7 is never queued; a reader still sees the message it dequeued |
| RawProofs.SlotConservation | axiom_netdev_driver/axiom_netdev_common.c:403-449 | free + queued + held slots total the initial count and each held slot has exactly one holder |
| RawProofs.ChecksHold | axiom_netdev_driver/axiom_netdev_common.c:384-413 | the impossible branches of receive and kthread are unreachable, and the kthread never reads an empty FIFO |
| RawRuns.ReaderReceives | axiom_netdev_driver/axiom_netdev_common.c:380-413 | a reader that gets its port's mutex, at its first try or after it was blocked, receives the first message of the port if there is one |
| RawRuns.ReaderBlocks | axiom_netdev_driver/axiom_netdev_common.c:384-400 | without one it blocks with the mutex free, and a signal sends it back |
| RawRuns.ReaderReturns | axiom_netdev_driver/axiom_netdev_common.c:445-452 | done, it frees the slot, and wakes the kthread exactly if there was no free one |
| RawRuns.FlushRuns | axiom_netdev_driver/axiom_netdev_common.c:473-502 | a flush from every state kept frees the whole queue, takes off all its messages and wakes the kthread |
| RawRuns.ServedExactly | axiom_netdev_driver/axiom_netdev_common.c:402-413 | for ports below 7 a step takes messages off the queue only as a reader's first message or a flush's whole queue |
| RawRuns.KthreadQueues | axiom_netdev_driver/axiom_netdev_common.c:309-342 | from every state kept with work, four kthread steps put the first message into the first free slot and that at the end of its port's queue; for port 7 the slot is free again |
| RawRuns.InterruptsBounded | axiom_netdev_driver/axiom_netdev_common.c:143-175 | over every run the handler runs at most once for each message that found the FIFO empty |
| RawRings.RawRing.constructor | axiom_netdev_driver/axiom_netdev_common.c:1380-1408 | the initialised ring holds the machine's initial state |
| RawRings.RawRing.PlaceSlot | axiom_netdev_driver/axiom_netdev_common.c:327-342 | a filled slot is queued on its port or, for a wrong port, freed |
| RawRings.RawRing.ServeOne | axiom_netdev_driver/axiom_netdev_common.c:309-342 | one iteration in place is four kthread steps |
| RawRings.RawRing.RxDequeue | axiom_netdev_driver/axiom_netdev_common.c:297-358 | the loop is a run of kthread steps and stops only with an empty FIFO or free list |
| RawRings.ReturnIsLegal | axiom_netdev_driver/axiom_netdev_common.c:445-449 | a reader holds the slot it gives back |
| RawRings.RawRing.TakeMessage | axiom_netdev_driver/axiom_netdev_common.c:402-413 | the dequeue in place is the reader's step, and the message read is the one in the slot |
| RawRings.RawRing.ReturnSlot | axiom_netdev_driver/axiom_netdev_common.c:445-452 | the push in place is the reader's step; the kthread is told exactly if no slot was free |
| RawRings.RawRing.FlushQueue | axiom_netdev_driver/axiom_netdev_common.c:475-494 | the flush loop in place is the machine's flush |
| LongLayout.LookupExact | axiom_netdev_driver/axiom_netdev_common.c:505-515 | for every 32-bit address and every zone up to 2^48 - 2^21 bytes the lookup gives buffer i if and only if the address lies in buffer i, and NULL if and only if it lies in none |
| LongLayout.ZoneMaxIsSharp | axiom_netdev_driver/axiom_netdev_common.c:505-515 | with one byte more address 0 is taken for the last buffer |
| LongLayout.LookupRightIff | axiom_netdev_driver/axiom_netdev_common.c:505-515 | for every zone size the lookup is right at all 32-bit addresses if and only if no distance below the zone, in buffer sizes, falls within 31 below a multiple of 2^32 |
| LongLayout.RdmaInit | axiom_netdev_driver/axiom_netdev_common.c:1612-1676 | fails if and only if one of the 64 buffers would not lie in the NIC's memory; otherwise gives all of them their CPU and 32-bit NIC addresses |
| LongLayout.BuffersDisjoint | axiom_netdev_driver/axiom_netdev_common.c:1644-1674 | in a 32-bit zone the 64 buffers overlap neither for the NIC nor for the CPU, lie inside it, and have equal offsets for both |
| LongLayout.BufferRoundTrip | axiom_netdev_driver/axiom_netdev_common.c:1653-1654 | for every zone size the lookup recovers a buffer from its hardware address if the buffer is findable, and finds none otherwise; up to 2^48 - 2^21 bytes findable means that 32 bits hold the address |
| LongLayout.LookupGives | axiom_netdev_driver/axiom_netdev_common.c:505-515 | for every address and zone size, a buffer the lookup finds is the one the address was given for |
| LongProofs.QueueNeverEmpty | axiom_netdev_driver/axiom_netdev_common.c:955-964 | the branches "LONG SW queue empty" and the empty dequeue are unreachable in every run, for every zone size |
| LongProofs.PoolsInStep | axiom_netdev_driver/axiom_netdev_common.c:955-988 | in every reachable state slots in use map injectively to busy buffers that still hold the slot's payload; with findable buffers the lookup is that map |
| LongProofs.ReaderSeesPayload | axiom_netdev_driver/axiom_netdev_common.c:1182-1231 | while a reader that found a buffer copies, the buffer holds the NIC's payload, is busy, and nobody is about to arm it; with findable buffers it finds one |
| LongProofs.ArmIsSafe | axiom_netdev_driver/axiom_netdev_common.c:1233-1248 | when a buffer is armed nobody refers to it any more, for every zone size |
| LongProofs.BuffersAccounted | axiom_netdev_driver/axiom_netdev_common.c:973-983 | a buffer is armed if and only if no descriptor, kthread, slot or re-arming thread has it, it is not lost, and it was not read without being found; one is lost per discarded message; with findable buffers the same goes by the driver's lookups and the last case never happens |
| LongFindings.AccountedIffAddressable | axiom_netdev_driver/axiom_netdev_common.c:1197-1204 | for every zone size, going by the lookups the buffers are accounted for in all reachable states if and only if every buffer is findable |
| LongFindings.UnaddressableLoses | axiom_netdev_driver/axiom_netdev_common.c:1197-1204 | for every buffer that is not findable a reachable state has it busy with nobody having it, and no continuation arms it |
| LongFindings.UnaddressableLeaks | axiom_netdev_driver/axiom_netdev_common.c:1291-1297 | for every such buffer a flush reaches a state from which no continuation frees the slot or arms the buffer |
| LongProofs.LeakedExactly | axiom_netdev_driver/axiom_netdev_common.c:1280-1297 | a step leaves a slot on no list if and only if it is a flush and the slot is the first of the queue whose buffer is not found |
| LongProofs.LeakedForEver | axiom_netdev_driver/axiom_netdev_common.c:1280-1297 | such a slot is never free again and its buffer never armed, in any continuation |
| LongProofs.FlushEmpties | axiom_netdev_driver/axiom_netdev_common.c:1273-1308 | with findable buffers a flush always empties its queue |
| LongProofs.LostExactly | axiom_netdev_driver/axiom_netdev_common.c:973-983 | a step loses a buffer if and only if the kthread places that buffer's message and its port is above 6, or a reader gives up a message of that buffer and it is not findable |
| LongFindings.BadPortLoses | axiom_netdev_driver/axiom_netdev_common.c:973-983 | for every zone size, every buffer and every port above 6 a run loses exactly that buffer, and no continuation arms it |
| LongProofs.LostForEver | axiom_netdev_driver/axiom_netdev_common.c:973-983 | a buffer lost either way is not armed again in any continuation |
| LongDelivery.LongPortDelivery | axiom_netdev_driver/axiom_netdev_common.c:955-988 | over every run, for each port, what readers and flushes took off its queue, followed by what is queued, in the kthread's hands and in the FIFO, is the LONG arrivals for that port in order |
| LongReaders.LongReadersWoken | axiom_netdev_driver/axiom_netdev_common.c:980-985 | over every history a LONG reader that sleeps beside a message on its port is about to be woken |
| LongRuns.ReaderReceives | axiom_netdev_driver/axiom_netdev_common.c:1166-1193 | a reader that gets its port's mutex, at its first try or after it was blocked, receives the first message of the port if there is one |
| LongRuns.ReaderBlocks | axiom_netdev_driver/axiom_netdev_common.c:1166-1181 | without one it blocks with the mutex free, and a signal sends it back |
| LongRuns.ReaderReturns | axiom_netdev_driver/axiom_netdev_common.c:1233-1248 | done, it frees the slot and then arms the buffer it found |
| LongRuns.FlushRuns | axiom_netdev_driver/axiom_netdev_common.c:1270-1311 | a flush whose buffers are all found frees the whole queue and arms exactly the queue's buffers |
| LongRuns.KthreadQueues | axiom_netdev_driver/axiom_netdev_common.c:944-988 | from every state kept, three kthread steps put a LONG message into the first free slot and that at the end of its port's queue; for a port above 6 the slot is free again |
| LongProofs.StepKeeps | axiom_netdev_driver/axiom_netdev_common.c:926-1315 | every step keeps the two pools in step |
| LongRings.LongRing.Receive | axiom_netdev_driver/axiom_netdev_common.c:955-988 | receiving one message in place is the machine's fill and place |
| LongRings.LongRing.TakeMessage | axiom_netdev_driver/axiom_netdev_common.c:1183-1196 | the dequeue in place is the reader's step, and the header read is the one in the slot |
| LongRings.ReturnIsLegal | axiom_netdev_driver/axiom_netdev_common.c:1233-1237 | a reader holds the slot it frees |
| LongRings.LongRing.ReturnSlot | axiom_netdev_driver/axiom_netdev_common.c:1197-1237 | freeing the slot in place is the reader's step and leaves a buffer to arm exactly if the address is in one |
| LongRings.LongRing.ArmBuffer | axiom_netdev_driver/axiom_netdev_common.c:1242-1248 | arming in place is the reader's last step |
| LongRings.LongRing.Flush | axiom_netdev_driver/axiom_netdev_common.c:1273-1308 | the flush loop in place is the machine's flush; it succeeds, with the queue empty, if and only if every queued address is in some buffer |
| RawFraming.StoreLoad | axiom_netdev_driver/axiom_kernel_api_arm64.c:107-116 | storing the word loaded from some bytes gives the bytes back |
| RawFraming.LoadByte | axiom_netdev_driver/axiom_kernel_api_arm64.c:107-116 | byte i of the memory loaded is byte i of the word, from the least significant |
| RawFraming.StoreByte | axiom_netdev_driver/axiom_kernel_api_arm64.c:144-155 | byte i of the word, from the least significant, is stored as byte i |
| RawFraming.FlattenAt | axiom_netdev_driver/axiom_netdev_common.c:235-254 | in the concatenation of the pieces each byte stands after those of the pieces before it |
| RawFraming.UnframeWords | axiom_netdev_driver/axiom_kernel_api_arm64.c:144-155 | the bytes of the words read back are the bytes they were made from |
| RawFraming.FramedLength | axiom_netdev_driver/axiom_kernel_api_arm64.c:107-119 | the framed length is a multiple of 8 in 8..256 that covers header and payload |
| RawFraming.RawTx | axiom_netdev_driver/axiom_kernel_api_arm64.c:92-127 | pushes the message's words in order, for every payload size, each byte in its place in its word, with an assigned id, all reads in bounds |
| RawFraming.RawRx | axiom_netdev_driver/axiom_kernel_api_arm64.c:135-162 | terminates and overwrites exactly the framed bytes of the message, each with its byte of the words |
| RawFraming.Gather | axiom_netdev_driver/axiom_netdev_common.c:235-254 | concatenates the sender's pieces, and fails exactly if they exceed the declared size |
| RawFraming.Scatter | axiom_netdev_driver/axiom_netdev_common.c:427-441 | fills the receiver's pieces in order with the payload, as far as they reach |
| RawFraming.Send | axiom_netdev_driver/axiom_netdev_common.c:196-262 | what goes through the FIFO: the five header bytes, the s and error bits clear and the id assigned, then the payload; nothing exactly on a size that does not fit |
| RawFraming.Receive | axiom_netdev_driver/axiom_netdev_common.c:402-457 | header and payload off the FIFO, the payload over the receiver's pieces, each full before the next, as far as they reach; fails exactly if the receiver allows less |
| RawFraming.SendAndReceive | axiom_netdev_driver/axiom_netdev_common.c:196-457 | for every payload up to 251 bytes and any two partitions, payload and header come back, the header with assigned id and cleared s and error bits, the payload over the receiver's pieces as far as they reach; fails exactly on a size that does not fit |
| IfTopology.MateIsMutual | include/axiom_sim_topology.h:67-87 | the k-th interface of n towards p and the k-th of p towards n are each other's mates |
| IfTopology.IfTopologyInit | include/axiom_sim_topology.h:56-88 | for cabling listed equally often at both ends every connected interface gets its mate, multi-links and self-links included; what is left in the array is a perfect pairing if and only if the cabling is symmetric |
| IfTopology.InitPerfectIff | include/axiom_sim_topology.h:56-88 | any matrix that has the mates for good cabling pairs perfectly if and only if the cabling is symmetric |
| IfTopology.PerfectIffSymmetric | include/axiom_sim_topology.h:56-88 | such a pairing exists only for symmetric cabling |
| EviAllocs.EviAlloc.constructor | include/evi_alloc.h:82-106 | all cells empty, count right |
| EviAllocs.EviAlloc.FindRun | include/evi_alloc.h:120-133 | the least start of a run of empty cells, -1 exactly if there is none |
| EviAllocs.EviAlloc.Alloc | include/evi_alloc.h:108-144 | takes the first fitting run, changes nothing else, fails exactly if none exists; the cached count stays right if and only if the value is not the empty mark (or nothing is taken) |
| EviAllocs.EviAlloc.Free | include/evi_alloc.h:146-161 | empties exactly the value's cells; the count stays right if and only if the value is not the empty mark (or no cell was empty) |
| EviAllocs.FreeUndoesAlloc | include/evi_alloc.h:108-161 | freeing a fresh value restores the cells its allocation took |
| EviAllocs.AllocThenFree | include/evi_alloc.h:108-161 | allocating and freeing an unused value gives back every cell and the count |
| Ports.FirstFree | axiom_netdev_driver/axiom_netdev_common.c:1875-1888 | PORT_ANY gives the lowest free port, or none exactly if all are taken |
| Ports.Driver.Open | axiom_netdev_driver/axiom_netdev_common.c:2570-2608 | succeeds exactly below 64 open descriptors, which `used` counts |
| Ports.Driver.Unbind | axiom_netdev_driver/axiom_netdev_common.c:1836-1853 | frees the port and keeps the masks exclusive |
| Ports.Driver.TryBind | axiom_netdev_driver/axiom_netdev_common.c:1863-1919 | gives each result exactly in its case, the lowest free port for PORT_ANY, never a port another descriptor has |
| Ports.Driver.Bind | axiom_netdev_driver/axiom_netdev_common.c:1855-1919 | gives each result exactly in its case, the lowest port no other descriptor has for PORT_ANY, the requested one otherwise; a failed bind leaves the descriptor unbound |
| Ports.Driver.Release | axiom_netdev_driver/axiom_netdev_common.c:2656-2676 | removes the descriptor and its port |
| Ports.Serve | axiom_netdev_driver/axiom_netdev_common.c:1836-1919 | over every run of critical sections a port bit is set if and only if exactly one descriptor of the kind is bound to it, and the descriptors are what the sections make of them in turn |
| Ports.OthersLeaveIt | axiom_netdev_driver/axiom_netdev_common.c:1836-1919 | over every run of sections of other descriptors a descriptor keeps its port |
| Ports.AxiomBind | axiom_user_library/axiom_user_api.c:343-374 | the exact result and descriptors: the LONG bind asks for the port the RAW one was given; on success both have it; if the second bind is refused the RAW descriptor keeps it and the LONG one is unbound |
| Routing.ReadBack | axiom_netdev_driver/axiom_kernel_api_arm64.c:289-327 | reading back a mask gives its lowest set bit, and zero exactly for zero |
| Routing.Device.SetRouting | axiom_netdev_driver/axiom_netdev_common.c:2466-2475 | cache and hardware agree on the node, others unchanged |
| Routing.Device.GetRouting | axiom_netdev_driver/axiom_netdev_common.c:2476-2486 | cache and hardware agree if and only if the entry is an interface below 8 or the null one |
| Routing.Device.NextHop | axiom_user_library/axiom_user_api.c:376-399 | the interface number if it is below 5, otherwise an error |
| Routing.SetThenNextHop | axiom_user_library/axiom_user_api.c:376-399 | after setting a mask the next hop is its lowest interface below 5, if any |
| Routing.Serve | axiom_netdev_driver/axiom_netdev_common.c:2466-2486 | over every sequence of SET and GET each node's cache and hardware entry end where its own requests lead them |
| Routing.LastSetWins | axiom_netdev_driver/axiom_netdev_common.c:2466-2486 | after any sequence a node's hardware entry encodes its last SET, or is the old one, and the cache has the same lowest interface |
| Routing.ReadInsane | axiom_netdev_driver/axiom_kernel_api_arm64.c:289-327 | an entry that is neither below 8 nor null, such as 8, is read as the empty mask |

## Left out

- Memory allocation failures, device probing and removal, sysfs, mmap, tracing, statistics: plumbing over kernel interfaces.
- The MMIO register and FIFO accessors: abstracted to a word sequence, a table and an interrupt bit.
- Copying to and from user space: an exact copy that does not fail.
- The mem_dev address translation is not part of this model.
- TX FIFO vacancy: a sender may find space or not, as a free choice.
- The wake-ups of RAW senders and of RDMA senders asleep for want of NIC space, and any liveness that depends on the scheduler or the watchdog.
- Stopping the kthread.
- The mismatch branch after `axiom_hw_rdma_tx`: that function returns the id it was given (axiom_kernel_api_arm64.c:190), so the branch is dead.
- Routing and alignment tests at the head of `axiomnet_rdma_tx`: an early return that takes nothing; for LONG messages it is the step that rejects the buffer.
- Discovery, the routing protocol's pseudo-code, the QEMU and x86 back ends, timespec helpers.
- RawRings.RawRing.RxDequeue: the loop is stated without other threads in between; interleavings are covered by the machine in RawReceive.
- RdmaRings.RdmaRing.RxDequeue: the loop is stated without other threads in between; interleavings are covered by the machine in RdmaProtocol.
- Routing.Device.GetRouting: a hardware entry of 32 or more other than the null one is read as an empty mask, where the shift is undefined in C.
- RawFraming.Gather: assumes each piece shorter than 2^31 bytes; the source narrows `iov_len` to int before the size test, so a longer one passes it as a negative length.
- RawFraming.Scatter: assumes each piece shorter than 2^31 bytes, for the same narrowing.
- Ports.AxiomBind: leaves out the flush that the bind ioctl makes after a successful bind (axiom_netdev_common.c:2152-2157); an error of that flush is returned with the port bound.
- Routing.ReadInsane: the same shift; entries from 8 to 31 are defined in C.
