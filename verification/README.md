# Verified model of the message queue and of the a1fs directory layer

A Dafny 4.11 project about two programs.

**The message queue** (`a2_message_queue`). Messages travel through a byte ring as an 8-byte length
followed by the body, under one mutex with two condition variables; poll calls hang nodes on each
queue's list and sleep on a condition variable of their own.

- `Framing.dfy`, `RingBuffer.dfy`: the frame layout and the ring, as a class over an array, proved
  against a plain byte sequence. Bytes outside the live window always carry the poison mark.
- `QueueCore.dfy`, `Backend.dfy`: what one critical section (lock to unlock or `cond_wait`) does, as
  functions on the value of a queue, and the class that does it in place on a ring.
- `Monitor.dfy`, `MonitorTheorems.dfy`, `MonitorOutcomes.dfy`, `MonitorEvents.dfy`,
  `MonitorProgress.dfy`, `MonitorStranding.dfy`, `MonitorWitnesses.dfy`: a transition system in which any number of threads
  run those sections in any order. A signal wakes one or more of the sleepers, whichever the
  scheduler picks, and sleepers may wake unasked, as IEEE Std 1003.1 permits. The theorems hold in
  every reachable state; where a documented property fails, its exact condition is proved and a
  reachable state shows the failure.
- `Poll.dfy`, `PollTheorems.dfy`, `PollRuns.dfy`, `PollDescriptors.dfy`, `PollLocks.dfy`,
  `PollResults.dfy`: a finer
  transition system for poll calls against the list walk of `helper_wakeup`, with queue mutexes, poll
  mutexes and any number of queues, poll calls and descriptors. Two theorems say exactly which
  descriptors are heard and which descriptor arrays can deadlock.
- `PolledQueue.dfy`, `PolledDescriptors.dfy`, `PolledOutcomes.dfy`: both systems joined on one queue, for what a poll call
  learns about its messages and which descriptors it hears when reads and writes bring about the events.
- `List.dfy`: the circular list on the heap.

**The directory layer of a1fs** (`a1_filesystem`).

- `Directory.dfy`: entry arrays and the finite maps they stand for.
- `Image.dfy`, `DirOps.dfy`: inode bitmap, inode table, extent blocks and data blocks, lookup, path
  walking, and the effect of mkdir, create, rmdir and unlink on them. Inodes and blocks not in use
  hold any bytes.
- `FileSystem.dfy`: the same operations in place, with the loops of the source.
- `Namespace.dfy`, `FsRuns.dfy`, `FsTheorems.dfy`, `FsInodes.dfy`, `FsWitnesses.dfy`: the namespace as a tree, the
  proof that every run of the operations on the image keeps it one, and a run that fills a directory.

`dafny verify dfyconfig.toml` checks the whole project.

## How to read the models

The bit masks of events and flags are a set and a record; `Handles` relates the record to the bits
stored in a handle. `size_t` arithmetic wraps explicitly (`Add64`, `Sub64`), and objects are at most
2^63 - 1 bytes. Histories (`accepted`, `delivered`, `everReader`, `nodes`, `silent`) are extra state
that no step reads.

A critical section of read, write or close is one step of the monitor. In the joined system that step
also begins the event update, which then goes on in two more writes and a walk. So a count that
`helper_count` makes between the removal of a message (msg_queue.c:330-331) and the clearing of
READABLE by the same read (msg_queue.c:338) is placed before that read.

Where the code and its own documentation differ, the model follows the code:

- a write on a non-blocking handle waits like any other, stores the message and then returns -1
  without updating the events (`QueueCore.ResumedWriteResult`, `MonitorEvents.ReadableStep`);
- a writer already asleep does not look at `no_readers` again, so it can store a message after the
  last reader, or its own handle, was closed (`MonitorTheorems.EofPersistsIff` says when that matters);
- WRITABLE is not set at creation and is cleared only when no byte is free
  (`MonitorEvents.WritableDocumentedIff` gives the exact difference);
- one signal is sent per message read, whatever room it frees (`MonitorStranding.NeverStrandedIff`
  says for which message sizes that is enough);
- closing a handle raises events without walking the poll list (`PollTheorems.CloseLosesWakeupIff`);
- a poll call that wakes up and finds nothing ready returns 0 (`PollResults.PollReturns`,
  `PollResults.ReturnsNothing`);
- a poll call sleeps on the condition variable of its first node only
  (`PollDescriptors.DescriptorHeardIff`), and holds its poll mutex while it registers the others
  (`PollLocks.DeadlockIffCycle`);
- only the first node's mutex and condition variable are initialised, while `helper_wakeup` locks and
  signals those of every node. Each poll call of the model carries a set `wild` of later nodes whose
  uninitialised mutex never lets a walker in; signals to later nodes have no effect. The theorems
  about lost wakeups and about deadlock hold for every `wild`; that nothing else ever stops
  (`PollLocks.StuckIffCycle`) assumes, as `PollLocks.LaterNodesOpen`, that no registered later node is
  in it, which holds by itself when only the first descriptor is live;
- a directory is never given a second block, so a name created in a full one overwrites its first
  entry (`DirOps.CreateAppendsIff`), and removal from a full one moves a slot from outside
  (`DirOps.RemoveFullIff`);
- unlink updates the inode at 64 times the parent's number (`DirOps.UnlinkRemovesIff`).

`mq_init` does not set `queue_event`, so runs start with any events set; only the theorems that
give READABLE and WRITABLE their exact meaning start from none. `(mode | 0777) == (S_IFDIR | 0777)`
is the flag `dir` of an inode.

## Model

| member | source | states |
|---|---|---|
| `Framing.WordRoundTrip` | a2_message_queue/msg_queue.c:323-330 | the length word written by a writer is the length the reader decodes, for every 64-bit length |
| `Framing.ParseHead` | a2_message_queue/msg_queue.c:323-331 | the peek and two reads of a framed ring give the oldest message and leave exactly the frames of the others |
| `Framing.FramesInjective` | a2_message_queue/msg_queue.c:323-331 | ring contents have at most one reading as a sequence of messages |
| `RingValues.Drop` | a2_message_queue/ring_buffer.c:136-168 | moving head over live bytes and poisoning just those drops them from the contents, wrapped or not, full or not, and keeps every free byte poisoned |
| `RingValues.Append` | a2_message_queue/ring_buffer.c:202-229 | storing bytes after tail appends them to the contents, and head == tail then means full |
| `RingBuffers.RingBuffer.constructor` | a2_message_queue/ring_buffer.c:63-81 | a new ring of any capacity up to 2^63 - 1 is empty and all poison |
| `RingBuffers.RingBuffer.Used` | a2_message_queue/ring_buffer.c:90-102 | the wrapping expression is the length of the contents; it never wraps wrongly |
| `RingBuffers.RingBuffer.Free` | a2_message_queue/ring_buffer.c:104-107 | the wrapping expression is the capacity less the length of the contents |
| `RingBuffers.RingBuffer.CheckFree` | a2_message_queue/ring_buffer.c:54-60 | the scan passes if and only if every byte of the segment is poison |
| `RingBuffers.RingBuffer.ReadCommon` | a2_message_queue/ring_buffer.c:128-170 | succeeds if and only if enough bytes are held, delivers exactly the oldest bytes and writes nothing else, drops them only when asked, changes nothing on failure |
| `RingBuffers.RingBuffer.Read` | a2_message_queue/ring_buffer.c:173-180 | a read drops the prefix it delivers |
| `RingBuffers.RingBuffer.Peek` | a2_message_queue/ring_buffer.c:182-189 | a peek delivers the prefix and leaves the whole ring as it was |
| `RingBuffers.RingBuffer.Write` | a2_message_queue/ring_buffer.c:192-233 | succeeds if and only if there is room, appends exactly the bytes given; every `check_free` assertion on the way holds |
| `Handles.MakeHandle` | a2_message_queue/msg_queue.c:115-134 | backend and flags come back out of the packed handle, for every 8-aligned backend |
| `Backends.Backend.Open` | a2_message_queue/msg_queue.c:137-151 | the in-place update of counts and flags is `QueueCore.Open`; the side opened is not missing, and closing the handle again gives back the counts |
| `Backends.Backend.Close` | a2_message_queue/msg_queue.c:154-173 | the in-place update is `QueueCore.Release`, with the events of lines 257-264 when a handle is left; it reports the last handle exactly |
| `Backends.Backend.Read` | a2_message_queue/msg_queue.c:297-345 | a section of read does to the queue what `QueueCore.AfterRead` says, delivers the message into the caller's buffer and writes nothing else there, and the ignored results of the peek and both ring reads are true |
| `Backends.Backend.Write` | a2_message_queue/msg_queue.c:356-398 | a section of write, refusals included, does what `QueueCore.AfterWrite` says, and the ignored results of both ring writes are true |
| `Backends.Backend.ResumeWrite` | a2_message_queue/msg_queue.c:375-398 | the same from the wait loop on, where a woken writer continues |
| `Monitor.CloseAssertions` | a2_message_queue/msg_queue.c:91-95 | every assertion of `mq_close` and `mq_destroy` holds for every open handle, and the count reaches 0 exactly with the last handle |
| `Monitor.StepKeepsLedger` | a2_message_queue/msg_queue.c:137-173 | every step keeps refs, readers and writers equal to the counts over the multiset of open handles |
| `Monitor.ReadKeepsFifo` | a2_message_queue/msg_queue.c:297-331 | a section of read takes the oldest queued message and keeps the ring equal to the frames of the rest |
| `Monitor.WriteKeepsFifo` | a2_message_queue/msg_queue.c:375-380 | a section of write adds its message as the newest and keeps the ring equal to the frames |
| `Monitor.ReadKeepsSound` | a2_message_queue/msg_queue.c:306-332 | a reader's section keeps the sleeper counts, even when one message was owed to this very reader |
| `Monitor.AcceptKeepsSound` | a2_message_queue/msg_queue.c:375-381 | storing a message and signalling keeps the sleeper counts |
| `Monitor.WaitKeepsSound` | a2_message_queue/msg_queue.c:369-377 | a writer that goes to sleep leaves a message queued: this is what the capacity check is for |
| `Monitor.CloseKeepsSound` | a2_message_queue/msg_queue.c:235-269 | closing a handle, with its broadcasts, keeps the sleeper counts |
| `Monitor.StepKeepsInv` | a2_message_queue/msg_queue.c:212-399 | every step of any thread keeps the ledger, the FIFO contents and the wakeup counts together |
| `MonitorTheorems.NoDeadlock` | a2_message_queue/msg_queue.c:306-332 | in every reachable state with a sleeping reader and a sleeping writer some reader is woken, or some writer if the queue is empty; and some woken thread has a step that completes its call if one woken reader has room for the next message |
| `MonitorTheorems.NoLostReaderWakeup` | a2_message_queue/msg_queue.c:257-266 | in every reachable state with a sleeping reader, queued messages are at most woken readers; no reader sleeps while the writers are gone, reopening included |
| `MonitorTheorems.FifoConservation` | a2_message_queue/msg_queue.c:323-380 | in every run, accepted = delivered followed by queued, and the ring is the frames of exactly the queued messages and of no other sequence |
| `MonitorTheorems.HandleLedger` | a2_message_queue/msg_queue.c:154-173 | in every run the counters count the open handles, a side is flagged gone if and only if it was opened and none of its handles is left, closing never fails an assertion, and the queue dies exactly with its last handle |
| `MonitorTheorems.EofExact` | a2_message_queue/msg_queue.c:297-345 | read returns 0 if and only if the writers are gone and everything accepted was delivered; a delivered message is the next one in order and has at least one byte |
| `MonitorTheorems.EofPersistsIff` | a2_message_queue/msg_queue.c:145-148 | end of file lasts over all runs that open no writer if and only if no writer is blocked in the queue |
| `MonitorOutcomes.WriteRefusals` | a2_message_queue/msg_queue.c:348-374 | in every reachable state a write is refused for no bytes, then for readers that were open and are all gone, then for a message that can never fit, and otherwise waits or stores by the room there is |
| `MonitorOutcomes.WriteOutcome` | a2_message_queue/msg_queue.c:356-398 | a call stores its message if and only if none of these refuses it and it fits now; a refused call changes nothing, one without room only goes to sleep, and one that stores wakes exactly the readers its signal chose |
| `MonitorOutcomes.WriteResumeOutcome` | a2_message_queue/msg_queue.c:375-398 | a woken write stores its message if and only if it fits now, and else sleeps again |
| `MonitorOutcomes.WriteAnswer` | a2_message_queue/msg_queue.c:382-398 | a write answers 0 exactly when it stored its message with a blocking handle, having raised READABLE; any other answer is -1 and leaves the events alone |
| `MonitorOutcomes.ReadOutcome` | a2_message_queue/msg_queue.c:297-322 | in every reachable state a read delivers the next message if there is one, and otherwise ends, refuses or waits by the writers' handles and its own mode |
| `MonitorOutcomes.ReadSectionOutcome` | a2_message_queue/msg_queue.c:297-345 | a call delivers exactly that message and wakes exactly the writers its signal chose, or sleeps, or changes nothing but the events |
| `MonitorOutcomes.ReadResumeOutcome` | a2_message_queue/msg_queue.c:306-345 | the same for a woken read, which sleeps again if and only if nothing is queued and writers are left |
| `MonitorOutcomes.CloseOutcome` | a2_message_queue/msg_queue.c:257-266 | a close wakes every sleeping writer if no reader handle is left after it, every sleeping reader if no writer handle is, and nobody else |
| `MonitorOutcomes.OpenOutcome` | a2_message_queue/msg_queue.c:137-151 | opening a handle brings its sides back and changes nothing else |
| `MonitorOutcomes.CallsPossible` | a2_message_queue/msg_queue.c:286-399 | in every reachable state exactly the idle threads with an open handle of the right kind can call, and exactly the woken ones go on, whatever sleepers their signals go to |
| `MonitorOutcomes.ClosesPossible` | a2_message_queue/msg_queue.c:235-269 | in every reachable state exactly the open handles can be closed |
| `MonitorEvents.ReadableRun` | a2_message_queue/msg_queue.c:337-341 | READABLE stays exact along every run without a spoiling step |
| `MonitorEvents.ReadableMeansReady` | a2_message_queue/msg_queue.c:389-392 | in such runs from cleared events READABLE holds if and only if a message is queued or the writers are gone, and if and only if a blocking read returns at once |
| `MonitorEvents.ReadableStep` | a2_message_queue/msg_queue.c:257-264 | from an exact state a step keeps READABLE exact if and only if it is neither a non-blocking write into an empty queue nor the reopening of writers at end of file |
| `MonitorEvents.WritableStep` | a2_message_queue/msg_queue.c:340-340 | from a state where WRITABLE means "drained or no readers" a step keeps that meaning if and only if it is neither a non-blocking write that takes the last byte nor the reopening of readers |
| `MonitorEvents.WritableDocumentedIff` | a2_message_queue/msg_queue.c:389-391 | from cleared events, in runs without a spoiling step, exactly when WRITABLE agrees with its documented meaning |
| `MonitorEvents.MissingSideAlwaysShown` | a2_message_queue/msg_queue.c:257-264 | in every run, a side that is gone is shown by both its events |
| `MonitorProgress.WriterProgress` | a2_message_queue/msg_queue.c:330-332 | if as many of the largest frames in use fit an empty ring as of the smallest, then whenever a writer sleeps at least as many writers are woken as smallest frames fit |
| `MonitorProgress.UniformProgress` | a2_message_queue/msg_queue.c:330-332 | in particular for messages of one length, whatever the capacity |
| `MonitorStranding.NeverStrandedIff` | a2_message_queue/msg_queue.c:330-377 | for every capacity and set of frame sizes: no run leaves a writer whose message fits asleep with no writer woken if and only if capacity / smallest = capacity / largest |
| `MonitorStranding.NothingPassesNobodySleeps` | a2_message_queue/msg_queue.c:369-373 | if the length checks refuse every size in use, no writer ever sleeps |
| `MonitorStranding.MixedLengthsStrandWriter` | a2_message_queue/msg_queue.c:375-377 | a ring of 40 bytes with frames of 9 and 28 bytes strands a writer |
| `MonitorWitnesses.EofWithWokenWriter` | a2_message_queue/msg_queue.c:375-377 | a run reaches end of file with a woken writer left, where `EofPersistsIff` says that end of file can end |
| `MonitorWitnesses.ReadableMissed` | a2_message_queue/msg_queue.c:383-387 | a run reaches a queued message without READABLE, after one non-blocking write |
| `MonitorWitnesses.WritableMissed` | a2_message_queue/msg_queue.c:69-88 | a new queue has room for a message without WRITABLE |
| `MonitorWitnesses.WritableOverstated` | a2_message_queue/msg_queue.c:389-391 | a run reaches WRITABLE with no room for a message |
| `Lists.List.Insert` | a2_message_queue/list.h:123-134 | the four assignments put the entry between its neighbours; next and prev stay mutually inverse around the ring |
| `Lists.List.AddHead` | a2_message_queue/list.h:144-147 | prepends to the sequence of entries |
| `Lists.List.AddTail` | a2_message_queue/list.h:157-160 | appends to the sequence of entries |
| `Lists.List.Delete` | a2_message_queue/list.h:168-178 | removes exactly the given entry and leaves it unlinked |
| `Lists.List.ForEach` | a2_message_queue/list.h:197-222 | the cursor loop ends and visits every entry once, in order |
| `Lists.AddThenDelete` | a2_message_queue/list.h:157-178 | adding and deleting an entry restores the list and leaves other lists alone |
| `Poll.StepKeepsInv` | a2_message_queue/msg_queue.c:271-283 | every step of every interleaving keeps lists, walks and pending signals consistent |
| `Poll.AddKeeps` | a2_message_queue/msg_queue.c:459-472 | registering a node under the queue mutex keeps the lists exact |
| `Poll.RemoveKeeps` | a2_message_queue/msg_queue.c:480-489 | removing a node under the queue mutex keeps the lists exact |
| `Poll.SignalKeeps` | a2_message_queue/msg_queue.c:274-281 | signalling a node, possible only once its poll mutex is free, loses no pending wakeup |
| `PollTheorems.PollNoLostWakeup` | a2_message_queue/msg_queue.c:456-479 | in every interleaving of poll calls, reads and writes, a poll call asleep although an event of its first descriptor is set has its node still ahead of a walk in progress |
| `PollTheorems.PollNoLostWakeupWithClose` | a2_message_queue/msg_queue.c:271-283 | the same with closes in the run, for every event not raised by a close since the last walk began |
| `PollTheorems.CloseLosesWakeupIff` | a2_message_queue/msg_queue.c:257-264 | a close loses a wakeup if and only if a sleeper asked for one of the events it raises |
| `PollTheorems.NodesAreLive` | a2_message_queue/msg_queue.c:449-495 | nodes on a list belong to poll calls that have not freed them, once each; a walk only ever stands on such a node; a sleeping call has all its nodes registered |
| `PollDescriptors.ReachableNoNewSides` | a2_message_queue/msg_queue.c:337-392 | in every run without closes, a call that found a descriptor not ready sees none of its events set later but READABLE and WRITABLE |
| `PollDescriptors.DescriptorHeardIff` | a2_message_queue/msg_queue.c:456-479 | for every array and descriptor i: in runs without closes a call never sleeps on a ready descriptor i with no walk still ahead of its first node, if and only if descriptor i asks for neither READABLE nor WRITABLE, or the first descriptor watches the same queue for those of the two that it asks for |
| `PollDescriptors.UncoveredLost` | a2_message_queue/msg_queue.c:274-281 | the run that loses the wakeup, for every array and every descriptor not covered in that sense |
| `PollDescriptors.SecondDescriptorLost` | a2_message_queue/msg_queue.c:474-479 | for one: READABLE on a second descriptor after a null first one |
| `PollDescriptors.CloseUnheard` | a2_message_queue/msg_queue.c:257-264 | a run reaches a poll call asleep for NOWRITERS that the last writer's close does not wake |
| `PollLocks.DeadlockLasts` | a2_message_queue/msg_queue.c:274-278 | walks and calls that wait for each other in a ring of queues do so after every further run of any steps |
| `PollLocks.DeadlockHasCycle` | a2_message_queue/msg_queue.c:458-472 | whenever walks and calls wait for each other, the arrays passed hold a cycle of calls, each registering a queue whose walk waits for the next |
| `PollLocks.DeadlockIffCycle` | a2_message_queue/msg_queue.c:458-472 | for every set of arrays: some run gets into such a deadlock, which lasts for good, if and only if the arrays hold a cycle |
| `PollLocks.StuckIsDeadlocked` | a2_message_queue/msg_queue.c:458-472 | whenever everything under way waits, its locked queues are such a deadlock |
| `PollLocks.StuckIffCycle` | a2_message_queue/msg_queue.c:458-472 | for every set of arrays: some run reaches a state in which everything under way waits if and only if the arrays hold a cycle |
| `PollLocks.OneArrayNeverStuckIff` | a2_message_queue/msg_queue.c:456-472 | with any number of calls passing one array something under way can always move, if and only if the first descriptor is null or its queue does not occur again |
| `PollLocks.TwoDescriptorsDeadlock` | a2_message_queue/msg_queue.c:458-472 | two descriptors on one queue reach such a state |
| `PollResults.SleepsIffNothingFound` | a2_message_queue/msg_queue.c:401-476 | in every run the first count looks exactly once at each descriptor, and the call then sleeps if and only if no look found an event set that the descriptor asks for |
| `PollResults.PollReturns` | a2_message_queue/msg_queue.c:474-496 | in every run a call returns how many looks of its first count found something, and if none did, how many of a second count, made in that case only |
| `PollResults.FirstCountDecides` | a2_message_queue/msg_queue.c:401-476 | for every array and all events of its queues, a call run alone ends its first count asleep if and only if no descriptor asks for an event that is set |
| `PollResults.ReturnsNothing` | a2_message_queue/msg_queue.c:475-478 | a run reaches a call that returns 0 |
| `PollResults.NodesInOrder` | a2_message_queue/list.h:157-160 | in every run a walk comes to the nodes of a call in the order of its descriptors |
| `PollResults.SignalsBetweenCounts` | a2_message_queue/msg_queue.c:277-279 | in every run a call is signalled only while asleep, awake without its poll mutex, or about to remove its first node |
| `PolledQueue.StepKeepsAgreement` | a2_message_queue/msg_queue.c:337-392 | the events poll calls see change exactly as the critical sections of read, write and close say |
| `PolledQueue.Project` | a2_message_queue/msg_queue.c:271-399 | a run of the joined system is a run of the monitor and a run of the poll system |
| `PolledQueue.SectionPossible` | a2_message_queue/msg_queue.c:297-399 | in every run of the joined system, every section the monitor can run with the mutex free can run: its effect on the events is one the poll system allows |
| `PolledQueue.ReadableSeenMeansReady` | a2_message_queue/msg_queue.c:401-419 | in every run without a spoiling step, READABLE found by `helper_count` in any state of the joined system means that a blocking read returns at once, and with the mutex free it is found whenever one would |
| `PolledQueue.NoSleepThroughMessage` | a2_message_queue/msg_queue.c:474-478 | in those runs, while a poll call sleeps whose first descriptor asks for READABLE and the queue's mutex is free, the queue is empty and has writers, unless a close raised READABLE since the last walk |
| `PolledDescriptors.UncoveredLostJointly` | a2_message_queue/msg_queue.c:274-281 | the losing run again, with its events brought about by a write, or by a non-blocking write and a read |
| `PolledDescriptors.DescriptorHeardJointlyIff` | a2_message_queue/msg_queue.c:456-479 | the exact condition of `DescriptorHeardIff` over the runs of the joined system without closes |
| `PolledOutcomes.SectionSeen` | a2_message_queue/msg_queue.c:257-394 | for every section of every run, in terms of messages and handles: which events it clears and raises, and whether it begins a walk |
| `PolledOutcomes.WalkFindsAll` | a2_message_queue/msg_queue.c:271-283 | a walk just begun has ahead of it every call asleep on a set event of its first descriptor, closes or not |
| `PolledOutcomes.EofReadWakes` | a2_message_queue/msg_queue.c:297-303 | a read that finds the end of file makes good the wakeup for NOWRITERS that the close left out |
| `Directory.LookupIsMap` | a1_filesystem/a1fs.c:117-125 | lookup by last match is lookup in the finite map of the entries |
| `Directory.ListedIffFound` | a1_filesystem/a1fs.c:117-125 | a name is listed if and only if it is found |
| `Directory.AppendIsInsert` | a1_filesystem/a1fs.c:557-559 | appending an entry inserts into the map and keeps names distinct |
| `Directory.RemoveIsDelete` | a1_filesystem/a1fs.c:636-651 | swap-with-last removal deletes exactly that name from the map and keeps names distinct |
| `Images.ResolveExtend` | a1_filesystem/a1fs.c:203-215 | resolving a path with one more component is a lookup in what the shorter path resolves to, errors propagated |
| `Images.ResolveErrors` | a1_filesystem/a1fs.c:186-216 | ENOTDIR if and only if a proper prefix resolves to something that is no directory, ENOENT if and only if a prefix resolves to a directory without the next component |
| `DirOps.CreateAppendsIff` | a1_filesystem/a1fs.c:737-757 | in a directory of one block, create appends its entry if and only if the block has a free slot; in a full block it replaces the first entry |
| `DirOps.MkdirAppends` | a1_filesystem/a1fs.c:520-559 | the parent's entries gain the new name at the end, and the new directory holds "." and ".." |
| `DirOps.CreateAppends` | a1_filesystem/a1fs.c:737-757 | the parent's entries gain the new name at the end |
| `DirOps.RemoveSwaps` | a1_filesystem/a1fs.c:626-661 | the removal loops are swap-with-last removal of that entry, whatever stale slots lie past the end |
| `DirOps.RemoveFullIff` | a1_filesystem/a1fs.c:626-646 | in a full block they are so if and only if the entry is the last one or the slot before the block equals it |
| `DirOps.UnlinkInRoot` | a1_filesystem/a1fs.c:811-845 | in the root, unlink is removal of the name and of one link |
| `DirOps.UnlinkRemovesIff` | a1_filesystem/a1fs.c:811-845 | unlink removes the entry from its directory if and only if that is the root; elsewhere the directory keeps its number of entries; the link dropped is that of inode 64 * parent, and no other inode changes |
| `FileSystem.FsImage.Helper` | a1_filesystem/a1fs.c:95-126 | the nested loops over extents, blocks and slots compute the lookup in the directory's entries |
| `FileSystem.FsImage.ReadDir` | a1_filesystem/a1fs.c:401-418 | emits the names of the entries in order, and a name is emitted if and only if `Helper` finds it |
| `FileSystem.FsImage.PathInode` | a1_filesystem/a1fs.c:186-216 | the component loop is path resolution, with both errors, on every image whose entries name inodes in use |
| `FileSystem.FsImage.Create` | a1_filesystem/a1fs.c:737-757 | the writes in place are `DirOps.CreateImage`, and a parent with a free slot gains the name at the end of its entries |
| `FileSystem.FsImage.Mkdir` | a1_filesystem/a1fs.c:520-559 | the writes in place are `DirOps.MkdirImage`; a parent with a free slot gains the name at the end of its entries and the new directory holds its two dot entries |
| `FileSystem.FsImage.Rmdir` | a1_filesystem/a1fs.c:588-661 | refuses by the link count of the child, otherwise removes the name and the parent's link and frees the child's inode |
| `FileSystem.FsImage.Unlink` | a1_filesystem/a1fs.c:781-845 | the writes in place are `DirOps.UnlinkImage`, in the root or below it, and the file's inode is freed |
| `Namespace.PathReaches` | a1_filesystem/a1fs.c:203-215 | in a tree every node is reached along its path from the root |
| `Namespace.PathNoDots` | a1_filesystem/a1fs.c:203-215 | that path has no dot components |
| `Namespace.PathUnique` | a1_filesystem/a1fs.c:203-215 | no other path without dot components reaches it |
| `Namespace.RemoveKeepsTree` | a1_filesystem/a1fs.c:592-661 | removing a file or an empty directory leaves a tree |
| `FsRuns.InitHoldsInv` | a1_filesystem/mkfs.c:146-169 | the formatted image is a tree of one directory, whatever the free inodes and blocks hold |
| `FsRuns.MkdirKeepsInv` | a1_filesystem/a1fs.c:520-559 | mkdir keeps the layout and the tree, and adds one directory to it |
| `FsRuns.CreateKeepsInv` | a1_filesystem/a1fs.c:737-757 | create keeps the layout and the tree, and adds one file to it |
| `FsRuns.RmdirKeepsInv` | a1_filesystem/a1fs.c:588-661 | rmdir keeps the layout and the tree, and removes an empty directory or nothing |
| `FsRuns.UnlinkKeepsInv` | a1_filesystem/a1fs.c:781-845 | unlink in the root keeps the layout and the tree, and removes one file |
| `FsRuns.LinksCountEntries` | a1_filesystem/a1fs.c:592-594 | a live directory has two links if and only if only its dot entries remain |
| `FsTheorems.NamespaceStaysTree` | a1_filesystem/a1fs.c:186-216 | after every run, every inode in use is resolved by a path without dot components, and by no other such path |
| `FsTheorems.NamedExactlyOnce` | a1_filesystem/a1fs.c:551-559 | after every run, the inodes in use other than the root are exactly those named by a non-dot entry, exactly one slot of one directory names each, and looking up its name there finds it |
| `FsTheorems.DotsNameSelfAndParent` | a1_filesystem/a1fs.c:551-556 | after every run, "." names the directory and ".." the directory whose entry names it |
| `FsTheorems.StaysClosed` | a1_filesystem/a1fs.c:117-125 | after every run, every entry of a directory in use names an inode in use |
| `FsTheorems.RmdirRefusesExactly` | a1_filesystem/a1fs.c:592-594 | after every run size = 256 * links, and rmdir refuses if and only if an entry other than "." and ".." can be found |
| `FsTheorems.StepRefinesTree` | a1_filesystem/a1fs.c:520-661 | after every run each operation on the image is the operation on a tree of finite maps |
| `FsTheorems.LookupReadsTree` | a1_filesystem/a1fs.c:95-126 | after every run lookup in the image is lookup in those maps |
| `FsTheorems.ResolveIsWalk` | a1_filesystem/a1fs.c:186-216 | path resolution on the image is the walk of the tree and ends on live inodes only |
| `FsInodes.FilesStayPlain` | a1_filesystem/a1fs.c:749-753 | after every run a file in use has one link, no bytes, no extents and its own number, and exactly one slot names it |
| `FsInodes.BlocksStayExact` | a1_filesystem/a1fs.c:602-608 | after every run the data blocks in use are exactly the blocks of the directories in use, one each |
| `FsInodes.CreateTouches` | a1_filesystem/a1fs.c:737-757 | create changes no inode but the parent's and the new one, and one slot of one block |
| `FsInodes.MkdirTouches` | a1_filesystem/a1fs.c:520-559 | mkdir changes besides these only the first extent of the new inode and the first two slots of its block |
| `FsInodes.RemoveTouches` | a1_filesystem/a1fs.c:626-661 | removal changes no inode but the parent's and at most the one slot of the name |
| `FsWitnesses.RootGetsFull` | a1_filesystem/a1fs.c:737-757 | fourteen creates fill the root, after which a name created there leaves "." out of it |

## Left out

- Backends.Backend.Read: the caller's buffer must hold the message, because the branch for a smaller one (msg_queue.c:325-329) unlocks, goes on and copies past the buffer; reads in the Monitor carry the same guard.
- Backends.Backend.Write: lengths above 2^64 - 9, for which `length + sizeof(size_t)` wraps.
- MonitorTheorems.NoDeadlock: a completing step needs a woken reader with room, for the reason given for `Backends.Backend.Read`.
- PollTheorems.PollNoLostWakeup: speaks of the first descriptor; `DescriptorHeardIff` says which others are covered.
- PollLocks.StuckIffCycle: assumes `LaterNodesOpen`, because locking an uninitialised mutex may do anything.
- FileSystem.FsImage.Unlink: the parent has one block with a free slot, and inode 64 * parent must lie in the table, with a link to drop and either no extent or a last slot inside the data area; otherwise the code writes outside. Runs of `FsRuns` unlink in the root only.
- FileSystem.FsImage.Rmdir: a parent of one block with at most 15 entries, because with 16 the index of the last entry becomes -1 (a1fs.c:626), as `RemoveFullIff` describes; the operations never make a directory of two blocks.
- DirOps.RemoveSwaps: the same bound, for the same reason; in runs of `FsRuns` nothing is removed from a full directory.
- DirOps.CreateAppends: a parent of one block with a free slot; `CreateAppendsIff` shows what happens without one, so runs of `FsRuns` add nothing to a full directory.
- DirOps.MkdirAppends: the same bound as `CreateAppends`.
- FileSystem.FsImage.Helper: directories of at most 512 entries, the length of its local arrays.
- The end of a poll call after its last list removal: the second unlock at msg_queue.c:493 and destroying the condition variable.
- The check of requested events against handle flags, the `revents` fields, and the error numbers of all calls: they would add easy members only.
- pthread wrappers, mutex validators, error reporting, memory allocation failures, threads that use a queue after it was destroyed.
- The search loops of the a1fs allocator, its data bitmap in place and its free counters: allocation is a choice of an unused inode and block, and rmdir clears the inode's bit after the removal loops instead of before them.
- truncate, read and write of file data, timestamps, statfs, getattr, FUSE glue, and splitting a path string into components.
- Formatting beyond the root directory, and mode bits other than "is a directory".
