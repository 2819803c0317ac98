# Models of the emulator and of the FreeRTOS kernel pieces that run on it

The repository is an ARMv6-M emulator together with the parts of FreeRTOS that
run on it. This project models, in Dafny, what is hard in both, and proves
properties of the models. `dafny verify dfyconfig.toml` checks all of it.

## What is modelled

**Stream and message buffers** (`RingIndex`, `Messages`, `StreamBuffer`,
`MessageSteps`, `MessageInterleaving`, `MessageLoss`, `MessageProgress`). The ring with one free slot, its two-part copies, and the
length-prefixed messages on top of it, first as a class that is used by one task
at a time, then as a state machine in which one writer and one reader interleave:
every chunk of a copy and every publication of `xHead` or `xTail` is a step of
its own, and the reader may receive or ask for the length of the next message.
`size_t` is 32 bits wide and little-endian.

**Lists** (`ListSpec`, `IntrusiveList`). The circular list of `list.c` with its
pointers, and the sequence with a cursor that it stands for.

**Co-routines** (`UnboundedClock`, `CoRoutineSpec`, `CoRoutineSteps`,
`CoRoutineRuns`, `CoRoutineTurns`, `CoRoutine`). The scheduler whose 32-bit tick wraps and whose two
delay lists swap at the wrap is shown to refine a clock that never wraps, over
runs of any length. `CoRoutine` holds the functions of `croutine.c` with their
nested loops over the module's variables.

**Event groups** (`EventBits`, `EventGroupSpec`, `EventGroupRuns`,
`EventGroupCalls`, `EventGroupMeetings`, `EventGroup`). The wait and wake protocol with its control
bits, over runs of set, clear, wait, sync, timeout and resume in any order, and
meetings of tasks on a group that others use at the same time.

**Exceptions** (`ExceptionVector`, `StackFrame`, `ContextSpec`, `EntryFrames`,
`ContextSwitcher`, `Nesting`, `Processor`). Priorities, entry, stack alignment and
return of sections B1.5.4, B1.5.6, B1.5.7 and B1.5.8 of the ARMv6-M Architecture
Reference Manual (ARM DDI 0419): the two forms of each fold over the exception
vector, the round trip of one exception, and runs in which exceptions nest.

**The Cortex-M0 port** (`PortSpec`, `PortStack`, `PortRuns`, `PortStart`,
`PortHandler`). The PendSV handler in the steps of its assembly, between an
exception entry and an exception return of the emulator, over runs of tasks whose
stacks are disjoint and which create further tasks.

**Arithmetic and encodings** (`Alu`, `RegisterTransfer`, `Assembler`, `SysTick`).

Where the source updates something in place, a class holds the fields and each
method is proved equal to a function on values; the properties are then proved
about those functions and about runs of them.

## What came out

* Messages can be lost. A reader that finds its own buffer too small, and one
  that asks for the length of the next message, moves the tail past the header
  and then puts it back; a writer that ran in between has by then used the room
  that the header had freed. `InOrderIffSafe` says exactly for which readers and
  rings delivery in order holds in every interleaving: the reader never asks for
  lengths and its buffer takes every message that fits the ring, or the ring is
  so small that four more bytes never make the difference
  (`MessageInterleaving.Safe`). For all others `UnsafeLosesMessages` gives a run
  that loses every message sent.
* A reader that asks for the next length may do so between the publications of a
  header and of its payload, and then stops at the assertion in
  `xStreamBufferNextMessageLengthBytes` that an empty buffer is all it can have
  found. `HaltsIffPeeks` says when that can happen: whenever such a reader exists
  and any message fits.
* A co-routine delay of zero ticks, made at the last tick before the wrap, is
  swapped out with the delay list and lasts two whole rounds of the tick;
  otherwise it lasts to the next tick. Every positive delay is exact, even when
  others ask for zero ticks (`CoRoutineSteps.Lasts`, `ReadyExactlyWhenDue`).
  `crDELAY` guards against zero, `vCoRoutineAddToDelayedList` itself does not.
* With PRIMASK set the execution priority is taken to be 0 even inside the
  HardFault handler, which runs at -1. A second HardFault is then taken on top of
  the first; in every other state an exception is taken only if it is strictly
  more urgent than all that are active (`TakenIsMoreUrgent`,
  `SecondHardFaultIsTaken`).
* The unrolled form of `current_execution_priority` equals its loop exactly when
  NMI is not active, and the unrolled `top_pending` equals its loop exactly when
  an implemented exception is pending and enabled or no reserved slot is pending.
* The comment in `vListInsertEnd` promises that the new item is the last to be
  returned by `listGET_OWNER_OF_NEXT_ENTRY`. That is so exactly when the index is
  on the end marker (`NewestIsLastIff`); otherwise the item that was returned last
  still comes after it (`InsertEndVisits`).
* Whether a task is privileged (CONTROL.nPRIV) is not saved with it: after a
  switch it is as the task left it that was switched out (`SwitchResumes`).
* The comment in `pop_stack` calls the stack alignment bit of xPSR reserved and
  ignored, but the mask there keeps bit 9. The model follows the code: xPSR comes
  back in its flags, exception number and Thumb bit, and bit 9 holds the
  alignment of the frame; the whole of it comes back just when its reserved bits
  are clear and its bit 9 already was that alignment (`WholeStatusSurvives`).

## Model

| member | source | states |
|---|---|---|
| RingIndex.UsedPlusFree | sdk/freertos/stream_buffer.c:470-491 | with size_t wrap-around written out, bytes in the buffer plus spaces available are always xLength - 1 |
| RingIndex.HeadMoves | sdk/freertos/stream_buffer.c:1088-1131 | advancing the head by at most the free space adds exactly that many bytes and never makes a full ring look empty |
| RingIndex.TailMoves | sdk/freertos/stream_buffer.c:1134-1186 | advancing the tail by at most the bytes held takes exactly that many away |
| RingIndex.WindowSplits | sdk/freertos/stream_buffer.c:1103-1122 | a wrapped window is the two halves that the two memcpy calls move |
| Messages.DecodeEncode | sdk/freertos/stream_buffer.c:661-710 | reading a concatenation of records gives back the messages that were framed |
| Messages.EncodeDecode | sdk/freertos/stream_buffer.c:918-967 | bytes that decode are the framing of what they decode to, so the framing has one reading |
| Messages.AppendRecord | sdk/freertos/stream_buffer.c:661-710 | header and payload written behind a well-framed content leave it well-framed with one more message |
| Messages.TakeRecord | sdk/freertos/stream_buffer.c:918-967 | header and payload read off the front are the first message, and what is left decodes to the others |
| Messages.LengthRoundTrip | sdk/freertos/stream_buffer.c:684-698 | a length read back from its bytes in memory is the length written |
| StreamBuffers.StreamBuffer.constructor | sdk/freertos/stream_buffer.c:219-276 | a new buffer is empty, well-framed, and has the room asked for |
| StreamBuffers.StreamBuffer.CopyIn | sdk/freertos/stream_buffer.c:1088-1131 | a copy in one or two parts puts each byte at its place round the ring and leaves every other byte |
| StreamBuffers.StreamBuffer.WriteBytes | sdk/freertos/stream_buffer.c:1088-1131 | bytes written within the free space are appended to the contents, wrapped or not |
| StreamBuffers.StreamBuffer.ReadBytes | sdk/freertos/stream_buffer.c:1134-1186 | the bytes read are the front of the contents and the rest stays in order |
| StreamBuffers.StreamBuffer.WriteMessage | sdk/freertos/stream_buffer.c:661-710 | one more message if header and payload fit, otherwise nothing; a stream takes what fits |
| StreamBuffers.StreamBuffer.Send | sdk/freertos/stream_buffer.c:506-607 | a send without waiting appends one whole message or changes nothing |
| StreamBuffers.StreamBuffer.ReadMessage | sdk/freertos/stream_buffer.c:918-967 | the first message is taken, or with too small a buffer the state is as before |
| StreamBuffers.StreamBuffer.Receive | sdk/freertos/stream_buffer.c:713-814 | a receive without waiting takes the first message whole or changes nothing |
| StreamBuffers.StreamBuffer.NextMessageLength | sdk/freertos/stream_buffer.c:817-858 | the length of the first message, or 0, with the state unchanged |
| StreamBuffers.StreamBuffer.IsEmpty | sdk/freertos/stream_buffer.c:970-990 | true exactly when there are no contents |
| StreamBuffers.StreamBuffer.IsFull | sdk/freertos/stream_buffer.c:993-1025 | true exactly when not even a one-byte message would fit |
| MessageInterleaving.NextInv | sdk/freertos/stream_buffer.c:1088-1206 | every single step of writer or reader, receives and calls for the next length alike, keeps the framing, in whatever intermediate state the other one is, if the reader is safe |
| MessageInterleaving.HeldHeaderMakesNoRoom | sdk/freertos/stream_buffer.c:933-949 | while a safe reader holds a header that it will put back, no message that fits with the header's room fits only because of it |
| MessageInterleaving.DeliversInOrder | sdk/freertos/stream_buffer.c:661-967 | with a safe reader, in every interleaving of both its calls, what was delivered is a prefix of what was sent, and when both are idle the buffer decodes to the rest |
| MessageInterleaving.NeverTakesLoneHeader | sdk/freertos/stream_buffer.c:713-814 | with a safe reader, in every interleaving, a receive that goes on to read has header and payload of the next message before it, though they are published apart |
| MessageLoss.UnsafeLosesMessages | sdk/freertos/stream_buffer.c:817-967 | for every other reader and ring, a run after which both are idle, messages were sent, none was delivered, and fewer bytes than a header are left |
| MessageLoss.InOrderIffSafe | sdk/freertos/stream_buffer.c:661-967 | delivery in order, with nothing lost, holds in every interleaving if and only if the reader is safe |
| MessageProgress.ReceiveDelivers | sdk/freertos/stream_buffer.c:713-967 | with a safe reader, in every interleaving: whenever the reader is idle and something sent is not delivered, one receive with room for it delivers exactly the next message, wherever it lies in the ring |
| MessageProgress.ReceiveFrom | sdk/freertos/stream_buffer.c:713-967 | and one with less room leaves the state as it was, if the writer does nothing meanwhile |
| MessageProgress.CallFinishes | sdk/freertos/stream_buffer.c:817-967 | a receive or a call for the length found anywhere in the copy of the header runs to its end: it delivers the message, or puts everything back |
| MessageProgress.DeliveryFinishes | sdk/freertos/stream_buffer.c:1134-1186 | a receive found anywhere in the copy of the payload runs to its end and delivers the next message |
| MessageProgress.SendFinishes | sdk/freertos/stream_buffer.c:661-710 | a send found anywhere in its copies runs to its end and adds its message |
| MessageLoss.HaltsIffPeeks | sdk/freertos/stream_buffer.c:817-858 | some interleaving stops at the assertion of the next-length call if and only if the reader makes that call and some message fits the ring |
| MessageLoss.RefusedIffNotRoomy | sdk/freertos/stream_buffer.c:933-949 | for a reader that only receives, some interleaving refuses a receive if and only if its buffer is smaller than a message that fits the ring |
| ListSpec.SortedInsertStaysSorted | sdk/freertos/list.c:103-167 | insertion before the first greater value keeps the order and goes behind all equal values |
| ListSpec.InsertEndIs | sdk/freertos/list.c:74-100 | insertion at the end adds exactly the one item |
| ListSpec.InsertEndVisits | sdk/freertos/list.c:74-100 | after it the next calls stop at the items that were there in the same order as before, then at the new one; only the item on which the index stands comes after that |
| ListSpec.NewestIsLastIff | sdk/freertos/list.c:84-86 | the new item is the last of a round if and only if the index is on the end marker |
| ListSpec.RemoveAtIs | sdk/freertos/list.c:170-196 | removal takes away exactly the one item |
| ListSpec.RemoveAtVisits | sdk/freertos/list.c:170-196 | after a removal the calls stop where they would have, with that item left out, even if the index was on it |
| ListSpec.InsertAtKeepsCursor | sdk/freertos/list.c:103-167 | sorted insertion leaves the index on the item it was on |
| ListSpec.WalkIsFair | sdk/freertos/include/list.h:277-290 | a walk of as many calls as there are items stops at each of them once, in order round the list |
| IntrusiveList.SplicedIn | sdk/freertos/list.c:74-100 | four pointer writes put an item into a ring in which next and previous are inverse, and it stays one |
| IntrusiveList.SplicedOut | sdk/freertos/list.c:170-196 | two pointer writes take an item out of such a ring, and it stays one |
| IntrusiveList.List.constructor | sdk/freertos/list.c:37-59 | a new list is the ring of its end marker alone |
| IntrusiveList.List.InsertEnd | sdk/freertos/list.c:74-100 | the ring stays well-formed and the item is just before the cursor |
| IntrusiveList.List.FindPlace | sdk/freertos/list.c:118-155 | the walk for the place ends for every value, portMAX_DELAY included, behind the last item that is not greater |
| IntrusiveList.List.Insert | sdk/freertos/list.c:103-167 | stable sorted insertion: the ring stays well-formed, and sorted if it was |
| IntrusiveList.List.Remove | sdk/freertos/list.c:170-196 | the item is out of its list, the cursor steps back if it was there, the count is returned |
| IntrusiveList.List.Advance | sdk/freertos/include/list.h:277-290 | the cursor goes to the next item, over the end marker |
| UnboundedClock.SleepsExactly | sdk/freertos/croutine.c:159-194 | on the clock without wrap a sleeper of d > 0 ticks sleeps exactly while fewer than d ticks have passed |
| CoRoutineSpec.SwappedOutEmpty | sdk/freertos/croutine.c:233-241 | the delay list that is swapped out when the tick wraps is empty, as long as nobody on it was passed by |
| CoRoutineSpec.NextTickOk | sdk/freertos/croutine.c:226-241 | counting a tick, with the swap of the lists at the wrap, keeps every invariant |
| CoRoutineSpec.UnblockOk | sdk/freertos/croutine.c:252-269 | taking a co-routine off its delay and event lists and making it ready keeps each item on exactly one list of its own, and no ready list above the top non-empty |
| CoRoutineSpec.WakeDueWakes | sdk/freertos/croutine.c:243-271 | the inner loop readies exactly those whose time has come, and leaves the delay list wholly ahead of the tick |
| CoRoutineSpec.ProcessTickWakes | sdk/freertos/croutine.c:226-272 | whatever was asked for before, after a turn of the outer loop nobody on the delay list is passed by, and exactly those due were woken |
| CoRoutineSpec.ProcessTickRefines | sdk/freertos/croutine.c:226-272 | one turn of the outer loop is one tick of the unbounded clock, at a wrap as at any other tick |
| CoRoutineSpec.ProcessTicksRefine | sdk/freertos/croutine.c:220-275 | so are any number of them, across any number of wraps |
| CoRoutineSteps.DelayRefines | sdk/freertos/croutine.c:159-194 | a delay is a delay on the unbounded clock, and settled lists stay on their sides of the tick if and only if it is not zero |
| CoRoutineSteps.DelayJoins | sdk/freertos/croutine.c:187-193 | with an event the co-routine joins that event's list, behind all as urgent and before all less so, and no other list; without one it waits for none |
| CoRoutineSteps.ZeroDelayIsSwappedOut | sdk/freertos/croutine.c:159-241 | after a zero delay the co-routine is on the overflow list when the next tick is counted if and only if that tick wraps, and its own tick then comes next only two rounds later |
| CoRoutineSpec.TickOfOne | sdk/freertos/croutine.c:220-275 | from any state, zero delays included, a tick wakes a given sleeper if and only if its time has come, and leaves its time as it was otherwise |
| CoRoutineSteps.ReadyAfterTicks | sdk/freertos/croutine.c:159-275 | after a delay of d and n ticks the co-routine is ready if and only if n is at least d; for d = 0, at least 1, or two rounds of the tick count when the delay was made at the last tick before the wrap |
| CoRoutineSteps.WaitOnOk | sdk/freertos/croutine.c:187-193 | joining an event list keeps it in order of priority |
| CoRoutineSteps.DrainPendingReadies | sdk/freertos/croutine.c:197-218 | the pending list is emptied, and exactly its members stop sleeping |
| CoRoutineSteps.RemoveFromEventListTakesHighest | sdk/freertos/croutine.c:328-350 | the one that goes to the pending list has the highest priority of all who wait for the event, and nothing else changes |
| CoRoutineSteps.CreateReadies | sdk/freertos/croutine.c:102-156 | a new co-routine is ready at the priority asked for, cut to the highest there is, nobody else's readiness changes, and all invariants hold |
| CoRoutineSteps.PickIsHighest | sdk/freertos/croutine.c:286-300 | the co-routine that is run is ready and no ready one is more urgent; none is run only if none is ready |
| CoRoutineSteps.PickKeepsAll | sdk/freertos/croutine.c:286-300 | picking changes neither who is ready nor any invariant |
| CoRoutineTurns.ScheduleReadies | sdk/freertos/croutine.c:278-283 | when n ticks have passed the scheduler finds ready whoever was, whoever an interrupt has readied and whoever's time has come, and nobody else |
| CoRoutineTurns.PicksTakeTurns | sdk/freertos/croutine.c:286-300 | co-routines of the same priority get an equal share: the n-th pick is the n-th stop of a walk round the highest ready list |
| CoRoutineRuns.ApplyRefines | sdk/freertos/croutine.c:67-350 | every operation keeps the invariants and is its counterpart on the unbounded clock, a tick as long as nobody has been passed by |
| CoRoutineRuns.SleepsUntilDue | sdk/freertos/croutine.c:220-275 | over any run, zero delays of others included, one left alone sleeps exactly until the count at which its tick comes round |
| CoRoutineRuns.ReadyExactlyWhenDue | sdk/freertos/croutine.c:159-275 | a co-routine delayed by d ticks and not readied by an event is ready if and only if as many ticks have been processed as its delay lasts, d if d > 0, whatever else the run does and however often the count wraps |
| CoRoutine.Scheduler.constructor | sdk/freertos/croutine.c:308-325 | the initial lists satisfy every invariant |
| CoRoutine.Scheduler.AddToReadyQueue | sdk/freertos/croutine.c:67-74 | the item goes to the end of the ready list of its priority, and the top priority follows |
| CoRoutine.Scheduler.CheckPendingReadyList | sdk/freertos/croutine.c:197-218 | the loop does what draining does on values |
| CoRoutine.Scheduler.CheckDelayedList | sdk/freertos/croutine.c:220-275 | afterwards the count is the kernel's tick count, less than one round later, and the nested loops have processed just the ticks between |
| CoRoutine.Scheduler.WakeSleepers | sdk/freertos/croutine.c:243-271 | the inner loop with its break does what waking the due does on values |
| CoRoutine.Scheduler.Schedule | sdk/freertos/croutine.c:278-305 | afterwards the count is the kernel's, nothing is pending, ready are those who were or whose event or time has come, and the one picked, who becomes the current one, is the most urgent of them |
| CoRoutine.Scheduler.AddToDelayedList | sdk/freertos/croutine.c:159-194 | the new state is the delay on values, and stays settled if and only if the delay is not zero |
| CoRoutine.Scheduler.RemoveFromEventList | sdk/freertos/croutine.c:328-350 | the head of the event list moves to the pending list; true if and only if it is at least as urgent as the current one |
| CoRoutine.Scheduler.Create | sdk/freertos/croutine.c:102-156 | the new state is the creation on values; the first one created becomes the current one |
| EventBits.EncodedReadsBack | sdk/freertos/event_groups.c:48-61 | the control bits clash with no event bit: an item value says exactly what its call asked for |
| EventBits.MatchesIsMet | sdk/freertos/event_groups.c:549-576 | the test on the item value in the loop is the caller's own wait condition |
| EventBits.ClearingIsSafe | sdk/freertos/event_groups.c:671-703 | clearing bits never makes a wait condition true |
| EventGroupSpec.StartsEmpty | sdk/freertos/event_groups.c:144-187 | a new event group, with no bits and nobody waiting, satisfies the invariant of all runs |
| EventGroupSpec.SetBitsWakesExactly | sdk/freertos/event_groups.c:519-610 | woken are exactly the waiters met by old and new bits together, each is handed those bits, the others keep their place and value |
| EventGroupSpec.SetBitsLeaves | sdk/freertos/event_groups.c:519-610 | cleared is exactly the union of what the woken clear-on-exit waiters waited for |
| EventGroupSpec.WaitBitsTakes | sdk/freertos/event_groups.c:311-396 | blocks if and only if the condition is not met and waiting is allowed, with just the call that was made; returns the bits before clearing; clears what was waited for and nothing else |
| EventGroupSpec.SyncKeepsInv | sdk/freertos/event_groups.c:191-248 | no waiter is left satisfied by a sync, whichever way it goes |
| EventGroupSpec.SyncMeets | sdk/freertos/event_groups.c:191-248 | a sync returns at once, with all bits, just when they are all there, and leaves none set and the others as they are; otherwise it blocks last in line for all of them, or returns what its setting left |
| EventGroupSpec.ExpireKeepsInv | sdk/freertos/event_groups.c:398-437 | a block time that runs out takes exactly that task off the list and leaves nobody satisfied waiting |
| EventGroupSpec.ResumeSees | sdk/freertos/event_groups.c:398-458 | a resumed call returns bits that meet it if it was woken, and otherwise the current bits, consuming them if they meet it by then |
| EventGroupRuns.ApplyKeepsInv | sdk/freertos/event_groups.c:191-610 | every operation keeps the invariant that nobody satisfied waits |
| EventGroupRuns.NoLostWakeUp | sdk/freertos/event_groups.c:519-610 | in every reachable state no task is waiting whose condition the bits meet |
| EventGroupRuns.HandedStays | sdk/freertos/tasks.c:3162-3193 | what a woken task was handed is not touched by any run of others until it resumes |
| EventGroupRuns.WokenReturnsSetBits | sdk/freertos/event_groups.c:398-458 | a woken waiter returns exactly the bits as they were when set, before clearing, after any run in between |
| EventGroupCalls.CallStays | sdk/freertos/event_groups.c:311-396 | whatever others do, a blocked task waits for what it asked |
| EventGroupCalls.BlockedWaitWakes | sdk/freertos/event_groups.c:311-610 | a task that asks for some or all of certain bits, and is not satisfied at once, is woken, after any run, by exactly those settings with which the bits are what it asked for |
| EventGroupCalls.BlockedSyncWakes | sdk/freertos/event_groups.c:191-248 | and one that syncs with too few bits by exactly those with which all are there |
| EventGroupMeetings.EarlyArrivalsWait | sdk/freertos/event_groups.c:191-248 | those who sync before all bits are there wait in order of arrival, whatever others do that does not set the last bit; of the meeting's bits exactly those are set that were set and not cleared since |
| EventGroupMeetings.LastArrivalReleases | sdk/freertos/event_groups.c:191-248 | the sync with which the bits are all there returns them, hands every waiting member the same value, and leaves them clear, with any others waiting who would not clear them |
| EventGroupMeetings.Rendezvous | sdk/freertos/event_groups.c:191-308 | for any number of tasks, any order, and steps of other users in between, which may set and clear bits of the meeting, the last arrival releases all with every bit, returns the same value, and leaves the bits clear |
| EventGroupMeetings.MembersReturn | sdk/freertos/event_groups.c:250-308 | and each of the others, whenever it runs again and whatever happens until then, returns from its xEventGroupSync that same value and clears nothing |
| EventGroupRuns.EarlyArrivalsBlock | sdk/freertos/event_groups.c:191-248 | on a group of their own, tasks that sync before all bits are there block in order of arrival, and the bits are exactly those set so far |
| EventGroupRuns.PrivateRendezvous | sdk/freertos/event_groups.c:191-308 | on a group of their own, the value that all of them get is exactly the bits set by any of them, and afterwards nobody waits |
| EventGroups.EventGroup.WakeMatching | sdk/freertos/event_groups.c:540-601 | the loop that removes items while it walks visits every waiter once |
| EventGroups.EventGroup.SetBits | sdk/freertos/event_groups.c:519-610 | the new state is the set on values, and the invariant holds |
| EventGroups.EventGroup.Sync | sdk/freertos/event_groups.c:191-248 | the new state and outcome are those on values |
| EventGroups.EventGroup.WaitBits | sdk/freertos/event_groups.c:311-396 | the new state and outcome are those on values |
| EventGroups.EventGroup.ClearBits | sdk/freertos/event_groups.c:461-485 | the bits are gone, the former value is returned, the invariant holds |
| EventGroups.EventGroup.Resume | sdk/freertos/event_groups.c:250-308 | the new state and result are those on values |
| ExceptionVectors.FormsAgree | micromachine/exception/exception_vector.hpp:413-489 | the unrolled and the loop form of top_pending agree if and only if an implemented exception is pending and enabled or no reserved slot is pending |
| ExceptionVectors.PriorityFormsAgree | micromachine/exception/exception_vector.hpp:491-546 | the unrolled and the loop form of the execution priority agree if and only if NMI is not active |
| ExceptionVectors.ExceptionVector.TopPending | micromachine/exception/exception_vector.hpp:441-489 | the 22 unrolled steps find the least pair of priority and number among the pending and enabled, or none if there is none |
| ExceptionVectors.ExceptionVector.TopPendingByLoop | micromachine/exception/exception_vector.hpp:413-440 | the loop over all 32 slots finds the least, reserved slots included |
| ExceptionVectors.ExceptionVector.CurrentExecutionPriority | micromachine/exception/exception_vector.hpp:508-546 | the least priority of the active from HardFault on, at most that of thread mode; PRIMASK replaces it by 0 |
| ExceptionVectors.ExceptionVector.CurrentExecutionPriorityByLoop | micromachine/exception/exception_vector.hpp:491-507 | the same from NMI on |
| StackFrame.WrittenHolds | micromachine/execution/context_switcher.hpp:260-267 | the eight words of a frame do not overwrite each other, at any address |
| StackFrame.UnstackedIsInverse | micromachine/execution/context_switcher.hpp:186-218 | popping gives back the stack pointer, bit 2 included, through the alignment bit of the stacked xPSR |
| StackFrame.WholeStatusSurvives | micromachine/execution/context_switcher.hpp:220-229 | all of xPSR comes back if and only if its reserved bits are clear and its bit 9 is the alignment of the stack pointer |
| StackFrame.StatusSurvives | micromachine/execution/context_switcher.hpp:220-229 | xPSR keeps flags, exception number and Thumb bit through a frame; bit 9 becomes the alignment |
| ContextSpec.EntryIs | micromachine/execution/context_switcher.hpp:137-184 | entry pushes the eight words on the bank in use, aligned down, selects the main stack and handler mode, and activates the exception |
| ContextSpec.EntryBranches | micromachine/execution/context_switcher.hpp:180-184 | the handler runs from the word at address 4 n, less its bit 0, in Thumb state just if that bit is set |
| EntryFrames.EntryStacks | micromachine/execution/context_switcher.hpp:240-276 | r0-r3, r12, lr, the return address and xPSR lie in this order in the 32 bytes from the new stack pointer on, which is the old one less 32, or 36 to be a multiple of eight; no other word changes, and lr is the EXC_RETURN for where the exception came from |
| EntryFrames.ReturnSelects | micromachine/execution/context_switcher.hpp:60-104 | each EXC_RETURN value that agrees with what is active selects its mode, stack and frame; any other selects nothing |
| EntryFrames.OtherBranches | micromachine/execution/interworking_brancher.hpp:31-43 | a branch in thread mode, or to an address without the top four bits, goes there less bit 0, which becomes the Thumb flag, and changes nothing else |
| ContextSpec.ReturnTargetIs | micromachine/execution/context_switcher.hpp:60-104 | the EXC_RETURN value of an entry selects the mode and stack of the interrupted state and no mismatch branch |
| ContextSpec.EntryReturnRestores | micromachine/execution/context_switcher.hpp:137-276 | entry, any handler that leaves the frame, and the matching branch give back r0-r3, r12, lr, both stack pointers, mode, stack selection, status, and the return address; the whole of xPSR just when its reserved bits are clear and bit 9 agrees with the stack pointer |
| ContextSwitchers.ContextSwitcher.PushStack | micromachine/execution/context_switcher.hpp:240-276 | the register and memory writes in turn are the push on values |
| ContextSwitchers.ContextSwitcher.PopStack | micromachine/execution/context_switcher.hpp:186-238 | the reads and writes in turn are the pop on values |
| ContextSwitchers.ContextSwitcher.ExceptionEntry | micromachine/execution/context_switcher.hpp:137-184 | the new state is the entry on values |
| ContextSwitchers.ContextSwitcher.ExceptionReturn | micromachine/execution/context_switcher.hpp:38-135 | the new state is the return on values, mismatch branches included |
| ContextSwitchers.ContextSwitcher.BranchInterworking | micromachine/execution/interworking_brancher.hpp:31-43 | in handler mode an address with the top four bits set returns, any other address branches |
| ContextSwitchers.ContextSwitcher.BranchLinkInterworking | micromachine/execution/interworking_brancher.hpp:45-53 | bit 0 goes to the Thumb flag and not to the program counter |
| Nesting.TakenIsMoreUrgent | micromachine/cpu.hpp:223-241 | an exception that is taken is strictly more urgent than every active one, if and only if PRIMASK does not hide an active HardFault |
| Nesting.SecondHardFaultIsTaken | micromachine/exception/exception_vector.hpp:508-546 | with PRIMASK set, a HardFault raised while HardFault is active is taken again |
| Nesting.ReturnRestores | micromachine/execution/context_switcher.hpp:38-135 | at any depth a return restores the state interrupted, from an active exception, and never through a mismatch branch |
| Nesting.StartsQuiet | micromachine/cpu.hpp:105-127 | a processor in thread mode with nothing active or pending satisfies the invariant of all runs |
| Nesting.ApplyKeepsInv | micromachine/cpu.hpp:129-176 | raising, enabling, executing, taking and returning keep the stack of interrupted states in step with modes and active flags; executing may also write CONTROL and clear what is pending |
| Nesting.StrictlyNested | micromachine/exception/exception_vector.hpp:491-546 | of two active exceptions the inner one is strictly more urgent |
| Nesting.NestingIsBounded | micromachine/cpu.hpp:129-176 | after any run, changes of privilege, of PRIMASK, of what is enabled and of what is pending included, handler mode holds exactly when something is active, and at most five are |
| Processors.TakesIsNext | micromachine/cpu.hpp:223-241 | what is taken is the one exception that is pending and enabled, more urgent than all other such, the lower number among equals, and than all that is active, or than priority 0 under PRIMASK; nothing just when there is none |
| Processors.Processor.NextExceptionToTake | micromachine/cpu.hpp:223-241 | the unrolled searches find just that exception |
| Processors.Processor.Step | micromachine/cpu.hpp:129-176 | a step takes an exception, or runs the instruction and may then take one, with the addresses that follow |
| Processors.EarlyExceptionReturnsHere | micromachine/cpu.hpp:129-176 | an exception taken before the instruction stacks the address of that instruction, because the program counter is always marked as written between steps |
| Processors.LateExceptionReturnsNext | micromachine/cpu.hpp:129-176 | one taken after it stacks where the program would have gone on, HardFault the instruction itself |
| Processors.PlainStep | micromachine/cpu.hpp:129-176 | without exceptions a step runs its instruction, which sees the program counter four bytes on, and goes on behind it by its size unless it branched |
| Processors.StepKeepsNesting | micromachine/cpu.hpp:129-176 | a whole step keeps the nesting invariant, if its instruction does; an instruction may enable and disable interrupts, raise and clear exceptions, and return |
| Processors.ProgramsNest | micromachine/cpu.hpp:129-176 | after any number of steps of any program that leaves the frames whole, handler mode holds exactly when something is active, active are the exceptions whose frames are stacked, each strictly more urgent than those below it, and there are at most five |
| PortSpec.RestoreIs | sdk/freertos/port.c:308-323 | the two loads through r4-r7 give r4-r11 as they were laid out, and the process stack pointer above them |
| PortSpec.SavedSelf | sdk/freertos/port.c:291-307 | after the save everything the task needs is on its own stack and in its control block |
| PortRuns.HandlerState | sdk/freertos/port.c:291-307 | while vTaskSwitchContext runs, interrupts are masked and the two words pushed are on the main stack |
| PortRuns.SwitchResumes | sdk/freertos/port.c:284-330 | one switch resumes the chosen task with its whole context, with interrupts unmasked and the main stack where it was, keeps all other tasks suspended as they were, and leaves the privilege as it was |
| PortRuns.ContextStays | sdk/freertos/port.c:284-330 | no run of other tasks, switches among them and creations of tasks touches what a task left off with |
| PortRuns.CreateKeepsInv | sdk/freertos/port.c:97-112 | creating a task in the course of a run, on a stack of its own, suspends it at its code and disturbs no other task |
| PortRuns.SwitchesAreInvisible | sdk/freertos/port.c:284-330 | a task switched out resumes, after any run, with r0-r12, lr, stack pointer, status and address as it was interrupted, and with interrupts unmasked |
| PortHandlers.Handler.SaveContext | sdk/freertos/port.c:291-307 | the instructions up to the call are the save on values |
| PortHandlers.Handler.RestoreContext | sdk/freertos/port.c:308-325 | the instructions after the call are the restore on values |
| PortStack.TaskStack.Initialise | sdk/freertos/port.c:97-112 | the decremented pointer writes the frame's xPSR, PC, LR and R0, and ends 16 words below |
| PortStack.FreshIsSuspended | sdk/freertos/port.c:97-112 | an initialised stack is that of a task suspended at its code, with its parameter and the port's lr and xPSR |
| PortStart.NewTaskStarts | sdk/freertos/port.c:97-112 | a new task first runs at its code with r0 the parameter, lr the port's address, the Thumb bit set and an empty stack |
| PortStart.CreatedTaskStarts | sdk/freertos/port.c:97-112 | a task created during a run, whatever runs until it is first switched to, then starts at its code with its parameter, lr, Thumb bit and an empty stack |
| PortStart.FirstTaskStarts | sdk/freertos/port.c:147-173 | so does the first task, whose frame is popped by hand |
| PortStart.RunsBegin | sdk/freertos/port.c:147-173 | starting the first task establishes the invariant on which the runs of switches rest |
| Alu.AdderIsExact | micromachine/execution/alu.hpp:167-185 | result and carry are the exact sum; overflow exactly when the signed sum does not fit |
| Alu.AddWordsIsExact | micromachine/execution/exec.hpp:253-268 | carries threaded through words of any number add exactly |
| Alu.SubtractionIsExact | micromachine/execution/exec.hpp:270-285 | complemented operands and a carry in of 1 subtract exactly, modulo the width; the carry out says no borrow |
| Alu.ConditionsAfterCompare | micromachine/registers/special_registers/apsr_reg.hpp:70-162 | after a comparison each of the 14 conditions is the order that it is named for |
| Alu.Core.Adc | micromachine/execution/exec.hpp:253-268 | register and carry flag are the exact sum of the operands and the old carry; V is set exactly when the signed sum does not fit |
| Alu.Core.Sbc | micromachine/execution/exec.hpp:270-285 | register and borrow are the exact difference of the operands and the old borrow; V is set exactly when the signed difference does not fit |
| Alu.Core.AddLong | micromachine/execution/exec.hpp:253-268 | ADC repeated over words of any number, through the carry flag, adds exactly |
| Alu.Core.SubtractLong | micromachine/execution/exec.hpp:270-285 | SBC repeated over words of any number, through the carry flag, subtracts exactly |
| Alu.Core.CmpReg | micromachine/execution/exec.hpp:327-340 | C is unsigned >=, N equal to V is signed >=, Z is equality, and every condition passes just when the order that it names holds |
| RegisterTransfer.PushAndPopAgree | micromachine/instruction/instructions.hpp:353-381 | PUSH and POP of one encoding transfer as many words as it has bits, LR where PC is read |
| RegisterTransfer.StoredLayout | micromachine/execution/exec.hpp:858-872 | each listed register is stored four bytes above the next lower one, and no other word changes |
| RegisterTransfer.PushLayout | micromachine/execution/exec.hpp:742-759 | PUSH lowers the aligned stack pointer by four for each bit of its list and leaves r0-r7 in ascending order from there, LR on top, and all else as it was |
| RegisterTransfer.Core.Push | micromachine/execution/exec.hpp:742-759 | the loop stores the listed registers in turn below the stack pointer, which moves by four times their number |
| RegisterTransfer.Core.Pop | micromachine/execution/exec.hpp:764-808 | the loop loads them in turn, moves the stack pointer and yields the branch target |
| RegisterTransfer.Core.Stm | micromachine/execution/exec.hpp:858-872 | the loop stores in turn from the base, which is written back |
| RegisterTransfer.Core.Ldm | micromachine/execution/exec.hpp:874-893 | the loop loads in turn; the base is written back unless it was loaded |
| RegisterTransfer.PushPopIsIdentity | micromachine/execution/exec.hpp:742-808 | POP after PUSH of any list, with the stacked words left alone in between, gives back the listed registers and the stack pointer and nothing else, a pushed LR as the target |
| RegisterTransfer.StoreLoadMultipleIsIdentity | micromachine/execution/exec.hpp:858-893 | LDM after STM from the same base, with the stored words left alone in between, gives back the listed registers, and the base ends where STM left it unless it was listed |
| Assembler.FindFields | micromachine-test/framework/CodeGenerator.cpp:72-95 | the first loop finds the field letters in order of first appearance, each once |
| Assembler.LettersInOrder | micromachine-test/framework/CodeGenerator.cpp:72-95 | values go to the fields in the order in which their letters first appear |
| Assembler.FieldIsBinary | micromachine-test/framework/CodeGenerator.cpp:96-122 | a field is the binary number that its bits make from left to right, as many as its letter occurs |
| Assembler.AssembleInstruction | micromachine-test/framework/CodeGenerator.cpp:58-122 | literal places are as written and every field, split or not, reads back as its value modulo its width |
| Assembler.OneResult | micromachine-test/framework/CodeGenerator.cpp:58-122 | there is only one half word of which that is true |
| SysTicks.OneStep | micromachine/systick.hpp:34-52 | with a reload value R > 0 the exception is raised at exactly the steps that are multiples of R + 1 |
| SysTicks.SysTick.Step | micromachine/systick.hpp:34-52 | the new state and whether the exception is raised |
| SysTicks.SysTick.Steps | micromachine/systick.hpp:34-52 | n steps from 0 raise n / (R + 1) exceptions |

## Left out

- Waiting in sends and receives of stream buffers, trigger levels and task notifications: the two blocking calls are modelled where they do not wait.
- Order of bytes within one `memcpy`: a copy is a sequence of chunks in ascending order, of any sizes.
- Interrupts inside the loops of `croutine.c`: each function is one step of a run, so an interrupt falls between functions.
- Failure of `pvPortMalloc` in `xCoRoutineCreate`, and the call of the co-routine's own function.
- EventGroupMeetings.Rendezvous: no block time of a member runs out during the meeting, nobody else comes to wait who would clear its bits, and its last bit is set by a member.
- EventGroupRuns.PrivateRendezvous: is the case of a group that nobody else waits on, where the exact values are known; `EventGroupMeetings.Rendezvous` is the general one.
- EventGroupRuns.EarlyArrivalsBlock: likewise, with `EventGroupMeetings.EarlyArrivalsWait` the general one.
- `vEventGroupDelete`, the calls from interrupts that are deferred to the timer task, and the scheduler behind `vTaskPlaceOnUnorderedEventList` beyond list membership and item value.
- The list integrity check values and the owner pointers of `list.c`.
- NMI and Reset in runs of nested exceptions: NMI is not seen by the execution priority, so `Nesting` raises neither; nor do its runs go on after a second HardFault that PRIMASK lets in (`SecondHardFaultIsTaken`).
- Processors.StepKeepsNesting: the frames of active exceptions stay whole, and priorities are fixed.
- Memory faults and unmapped addresses: memory is total, in aligned words. In runs of nested exceptions and of tasks, frames that overlap other frames or the kernel's memory are excluded by condition.
- Processors.Processor.Step: the effect of an instruction is a parameter; decoding and the instructions themselves are not modelled beyond `Alu` and `RegisterTransfer`.
- Interrupts that nest inside the PendSV handler: the handler is one step of a run. `EntryReturnRestores` says what an interrupt gives back.
- Deletion of tasks, and reuse of their stacks.
- PortSpec.KernelRan: `vTaskSwitchContext` is any change of the kernel's memory that picks a task.
- Reset and copying of the exception vector, and the setters of pending, enable and priority bits beyond `Nesting.Raise` and `Nesting.Enable`.
- Shifts and rotates, `bits.hpp`, the NVIC and system control registers, the decoder and the disassembler: mostly facts of one branch.
- Sockets, threads, the ELF loader and the debugger interface: input and output.
