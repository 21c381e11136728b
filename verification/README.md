# Proofs about the course projects and their headers

Dafny models of the code with the most state and the most arithmetic in the
repository, and proofs of what that code promises. Each method follows the
source statement by statement and is tied to functions and relations on values;
the lemmas are about those. `dafny verify dfyconfig.toml` checks everything.

## The three parts

**The thread library (`proj2`).** `ThreadLib.dfy` has the thread table, the
list of blocked receivers, the mailbox word, the registers and the
word-addressed stacks as mutable objects. `Threads.dfy` says what each
operation does on values, and `Step` is the transition relation over creates,
sends, broadcasts, receives, alarm signals and thread exits. `ThreadRuns.dfy`
and `MailboxOrder.dfy` prove safety, bounded waiting and message order for all
runs, for every number of slots N > 0 and any number of mailboxes. `Machine.dfy`,
`MachineRuns.dfy` and `SwitchedBack.dfy` add memory: arbitrary code between
library calls, `ctxsw`, the first frame of a thread, and messages stored through
pointers into the stacks of blocked threads. `SwitchExample.dfy` works out runs
that these theorems speak of. `MailboxLists.dfy` has the calls with all mailboxes
in view, and `KernelRuns.dfy` carries out whole runs with the methods on the
objects. `AlarmWindow.dfy`, `CreateWindow.dfy` and `SwitchWindow.dfy` follow an
alarm that fires where the code does not expect one.

What the code does, as opposed to what its comments say:

- A blocked receiver is never put in state XBLOCK: `message.c:136` compares
  where it means to assign. It stays XRUN. The invariant is that a slot is
  blocked exactly if it is XRUN and not the current one.
- "Full" is `message > 0` and "empty" is `message == -1`. `FifoExactlyPositive`
  shows that a message value is carried faithfully by all runs exactly if it is
  positive.
- A step is one library call up to and including its `resched`. The source does
  not always disable the alarm for that long. There are five windows:
  - `xthread_recv` looks at the box before it disables the alarm
    (`message.c:129`). If it saw no message, `LateQueueing` says exactly when the
    late enqueue keeps the invariant, and `LateReceiverReachable` gives a run in
    which it does not. If it saw one, `LateTake` says that it stores -1 as a
    message exactly if the box has been emptied meanwhile, and that the invariant
    survives; `LateTakerReachable` gives such a run.
  - `xthread_recv` re-arms the alarm before it calls `resched` (`message.c:161`).
    `EarlyAlarmExactly` says, for every run of the other threads, that the
    receiver ends up properly blocked exactly if no send or broadcast served it
    in between, and is lost otherwise; `EarlyAlarmOrphans` gives such a run and
    `OrphanForever` shows that a lost thread stays lost.
  - `userret` marks its slot FREE and calls `resched` with the alarm live
    (`create.c:13-17`). `LateExitOrphans`: if the alarm fires there, the finished
    thread becomes READY again, and its slot is lost when it has run once more.
  - `xthread_create` never disables the alarm and marks the slot READY
    (`create.c:60`) before its frame and stack pointer exist (`create.c:62-85`).
    `WindowFatal`: once the alarm has taken the processor from the creator, it has
    it again only after the new slot has had it, in every run of the others.
    `EnteredStale`: the new slot is then entered with the stack pointer it had
    before the create, which belongs to no frame. `EarlySwitch` says when that
    is the first switch: exactly if the new slot is the first READY one after the
    creator.
  - `resched` re-arms the alarm when `currxid` already names the new thread and
    the old one still has the processor (`resched.c:32-33`).
    `SwitchInterrupted`: an alarm there makes the handler save the old thread's
    stack pointer as the new one's, so the new thread's frame is lost, exactly if
    they are two threads. `main` does the same before its first switch
    (`main.c:46-47`): `MainInterrupted`.
- `ctxsw` pushes edi, esi and ebp but overwrites ebx: `EbxKeptExactly`, and
  `EbxLost` for a run in which it is lost.

**Numeric and parallel kernels.** Arithmetic is over exact reals or unbounded
integers. `Elimination.dfy` and `MatrixLib.dfy` treat the Gauss-Jordan inverse,
the products and the transpose of `nvMatrix.h`; `Quaternions.dfy` the algebra of
`nvQuaternion.h`; `BlockSum.dfy` and `Reduction.dfy` the GPU reduction with
explicit schedules of single loads and stores; `BandMultiply.dfy` the threaded
product with explicit schedules of single multiply-adds and stores;
`SparseNorm.dfy` the two norms.

- `inverse` ends in one of three ways. It returns the two-sided inverse exactly
  if the matrix is invertible. It divides by a zero pivot, in columns 0 to 2,
  exactly if no row is zero and the first three columns are dependent. Every
  other singular matrix makes it return the identity.
- `m *= m` leaves the zero matrix, because the operand is cleared first, so it is
  the square exactly if the square is zero; `q *= q` is the square exactly under
  the condition in `SelfMulExactly`.
- The in-place reduction passes are right for all inputs exactly if no cell is
  overwritten before it is loaded (`LaunchCorrectIffSafe`,
  `PassKeepsSumIffSafe`), and the host loop exactly if each of its launches is
  (`ResultRightIffSafe`): no later launch makes up for a wrong one. Nothing in the
  program enforces that: `RaceExists` for every launch of more than one block, and
  `WrongSum` for a host loop that starts with more than 256 cells.
- The threaded product leaves out the last `dim % threads` rows.

**Codecs and data movement.** `ListSum.dfy` has the server choice, the split
into linked lists, the external data representation of a list and the map and
reduce of `proj4`; `Bank.dfy` the requests and the record file of `proj3`;
`Image.dfy` the pixmap writer and reader of `helper_image.h`. `Bytes.dfy` has
words in both byte orders.

- The two servers differ exactly if a machine other than the first has a load
  below 1.0; otherwise the answer is twice the sum of the odd positions.
- The bank server keeps the low half of an account number and the high half of
  an amount.
- The pixmap reader accepts any spread of the three numbers over lines, with any
  lines between that have no effect. A line has none exactly if every buffer full
  of it starts with a `#` or with something that is no number
  (`LineSkippedExactly`). So a comment of up to 61 characters after the `#` is
  harmless, a longer one is if each later piece of 63 bytes is, and a blank line
  never is: it takes the counter one back, and before the first number it ends
  the header with a picture of no size.
- The writer and the reader count bytes in 32 bits, the reader allocates in 64.
  A four-channel picture keeps all its colours exactly if they number less than
  2^32. The padding loop of the four-channel reader outruns what was allocated
  exactly for the sizes in `TooShort`: pictures of one channel whose number of
  pixels stays below 2^31, and pictures of three in one range near 2^64 / 3.

## Model

| member | source | states |
|---|---|---|
| `Threads.SearchFrom` | proj2/create.c:25-32 | the slot found is in the wanted state and no slot in that state is nearer going forward from the start; nothing found means there is none |
| `ThreadRuns.StepInv` | proj2/message.c:19-184 | every library step from a state that satisfies the invariant leads to one that does, with the same number of slots and boxes |
| `ThreadRuns.BootInv` | proj2/main.c:34-45 | the invariant holds when main has made slot 0 the running thread |
| `ThreadRuns.ParkedEnqueue` | proj2/message.c:129-157 | a receiver put at the end of an empty box's list keeps every blocked slot listed once |
| `ThreadRuns.ParkedWake` | proj2/message.c:93-118 | taking the first k receivers off a list and making them READY keeps the invariant, so no wakeup hits a slot that is not waiting there |
| `ThreadRuns.ReschedInv` | proj2/resched.c:20-36 | the chosen slot was READY and is the only one changed; if none is chosen every slot is free or blocked |
| `ThreadRuns.ReschedPicksFirstReady` | proj2/resched.c:22-32 | the next thread is the first READY one after the current slot, going up and then from 0, the current slot last |
| `ThreadRuns.SlotPartition` | proj2/message.c:126-164 | in every reachable state each slot is free, READY, current or blocked, blocked means XRUN and not current, each blocked slot is listed once over all boxes, and no box holds both a message and waiters |
| `ThreadRuns.CreatePicksFirstFree` | proj2/create.c:20-35 | a create gets a slot that is free, hence not the current one and not waiting, and the first such from the cursor going up and then from 0; the cursor stops just past it; it fails exactly if no slot is free |
| `ThreadRuns.ReschedFails` | proj2/resched.c:23-38 | resched finds no thread exactly if none is READY |
| `ThreadRuns.StopsExactly` | proj2/resched.c:37-38 | the exit for want of a thread happens exactly when the caller blocks or ends and all other slots are free or blocked, never from the alarm handler; the exit for want of a slot exactly on a create with no free slot |
| `ThreadRuns.NearerInRing` | proj2/resched.c:22-25 | if another slot is chosen first, the distance from the running slot to x shrinks |
| `ThreadRuns.StepNearer` | proj2/resched.c:20-36 | a READY slot is running after a step or stays READY, nearer by one if the step called resched |
| `ThreadRuns.BoundedWaiting` | proj2/resched.c:20-36 | over any run, a READY thread gets the processor within as many calls of resched as its distance, at most N - 1 |
| `MailboxOrder.OrderKept` | proj2/message.c:19-184 | over any run with positive messages, accepted sends and receive requests stay matched in order and the stored message or the waiters are the unmatched rest |
| `MailboxOrder.FifoDelivery` | proj2/message.c:19-184 | the k-th accepted message goes to the k-th request, nothing lost or repeated, and accepted minus requested is the stored message minus the number of waiters; a successful broadcast counts once per waiter |
| `MailboxOrder.LosesMessage` | proj2/message.c:23 | two sends of any message that is not positive lose one |
| `MailboxOrder.Returned` | proj2/message.c:19-124 | a send returns -1 exactly if the box holds a message above zero and 0 otherwise; a broadcast -1, -2 if it does not and no receiver waits, and 0 if one does; how many receivers are served and what the box then holds |
| `MailboxOrder.FifoExactlyPositive` | proj2/message.c:129 | a value is carried in order by every run exactly if it is positive |
| `MailboxOrder.LateQueueing` | proj2/message.c:129-157 | a receiver that queues itself on an old emptiness test keeps the invariant exactly if the box is still empty |
| `MailboxOrder.LateReceiverReachable` | proj2/message.c:129-132 | a run in which the box is filled between the test and the enqueue |
| `MailboxOrder.LateTake` | proj2/message.c:129-179 | a receiver that takes on an old test does what a receive would do exactly if the box is not empty, stores -1 as a message exactly if it is, and keeps the invariant either way |
| `MailboxOrder.LateTakerReachable` | proj2/message.c:129-179 | a run in which the box is emptied between the test and the taking |
| `MailboxOrder.EarlyAlarmOrphans` | proj2/message.c:161-164 | a run in which the alarm fires between re-arming and resched and leaves the receiver neither READY nor listed |
| `MailboxOrder.OrphanForever` | proj2/message.c:161-164 | no later step makes such a thread run again |
| `AlarmWindow.AwayStep` | proj2/message.c:161-164 | a receiver made READY while it is listed stays so, or has the processor again; it leaves the list exactly when a send or broadcast serves it |
| `AlarmWindow.ReschedAway` | proj2/resched.c:20-36 | resched from a table with such a slot leaves either the receiver or another thread running, as if it were blocked |
| `AlarmWindow.OwnResched` | proj2/message.c:164 | the receiver's own resched restores the invariant exactly if it is still listed and makes it an orphan exactly if it is not |
| `AlarmWindow.EarlyAlarmExactly` | proj2/message.c:129-164 | for every run between the alarm and the receiver's own resched, the invariant is restored exactly if nothing served the receiver, and it is an orphan exactly if something did |
| `AlarmWindow.LateExitOrphans` | proj2/create.c:9-18 | an alarm between FREE and resched makes a finished thread READY, and for every run its own resched then leaves it an orphan |
| `CreateWindow.PicksFirstReady` | proj2/resched.c:22-32 | a READY slot is picked exactly if it is the first one after the caller |
| `CreateWindow.EarlySwitch` | proj2/create.c:59-85 | the first switch while a thread is being created enters the frame of a thread that left one, unless the new slot is the first READY one after the creator; exactly then it loads a stack pointer that belongs to no frame |
| `CreateWindow.OrderInRing` | proj2/resched.c:22-25 | two slots keep their order going forward when a slot before both is chosen |
| `CreateWindow.StepAhead` | proj2/resched.c:20-36 | a READY slot that comes before another READY one does so after every step, until it runs |
| `CreateWindow.WindowFatal` | proj2/create.c:59-87 | for every run after an alarm in a create, the creator has the processor again only after the new slot has had it |
| `CreateWindow.CreatorTooLate` | proj2/create.c:59-87 | the same for every run of the machine, with its code between calls |
| `CreateWindow.SwitchBeside` | proj2/ctxsw.s:8-21 | a switch that does not enter x neither reads nor writes x's saved stack pointer |
| `CreateWindow.EffectBeside` | proj2/create.c:85 | nor does any other step of the machine while x is off the processor |
| `CreateWindow.EnteredStale` | proj2/create.c:85 | in every such run the memory, up to the switch into the new slot, is that of a finished create except for the saved stack pointer, and the switch loads the one of before the create |
| `SwitchWindow.HandlerChooses` | proj2/main.c:14-23 | an alarm between re-arming and the switch always finds a thread |
| `SwitchWindow.FrameLost` | proj2/ctxsw.s:13-14 | a switch made in the name of a thread from another stack leaves that thread without a frame |
| `SwitchWindow.SwitchInterrupted` | proj2/resched.c:29-33 | an alarm before the switch loses the frame of the thread to be entered exactly if it is not the one that leaves, whose own stack pointer is then not saved; all other frames are kept, and which stack pointer the handler's switch loads |
| `SwitchWindow.MainInterrupted` | proj2/main.c:45-47 | an alarm before main's switch always loses the frame of xmain, and main goes on |
| `SwitchWindow.MainNeverLeaves` | proj2/main.c:47 | the switch main then makes loads what is saved for slot 0 |
| `Machine.NoteHolds` | proj2/message.c:47 | a message stored through a receiver's pointer changes only that receiver's saved stack, above its saved words |
| `Machine.NoteAllHolds` | proj2/message.c:93-118 | the same for all stores of a broadcast |
| `Machine.PushedHolds` | proj2/ctxsw.s:9-14 | what ctxsw pushes is the frame of the thread that leaves, and no other saved stack or stack pointer changes |
| `Machine.SwitchHolds` | proj2/ctxsw.s:8-21 | after a switch all saved frames are intact and the registers are those of the frame that was entered, also when a thread switches to itself |
| `MachineRuns.CreatedHolds` | proj2/create.c:62-85 | the words written for a new thread form a frame and disturb no other |
| `MachineRuns.StoresHold` | proj2/main.c:34-40 | code that stores only into its own stack or outside all stacks disturbs no saved frame |
| `MachineRuns.MStepInv` | proj2/ctxsw.s:8-21 | every permitted step of the machine keeps the invariant: saved frames match memory, one per live thread off the processor, receivers' pointers lie outside saved words |
| `SwitchedBack.BootMachInv` | proj2/main.c:34-47 | after main's own call of ctxsw, with its pushes and the stack pointer saved in m.xregs, the machine invariant holds and xmain is entered with its arguments |
| `SwitchedBack.MainPushes` | proj2/main.c:47 | what main pushes for its call of ctxsw disturbs no thread's frame |
| `SwitchedBack.CreatedEntry` | proj2/create.c:62-85 | switching into the frame just built enters the procedure with userret and the arguments above it |
| `SwitchedBack.RunKeepsFrame` | proj2/ctxsw.s:8-21 | over any run, the frame of a thread off the processor changes only in words it is receiving into |
| `SwitchedBack.GoesOnAfterRun` | proj2/ctxsw.s:14-21 | a thread switched back in after any run goes on from that frame |
| `SwitchedBack.LeaveAndReturn` | proj2/ctxsw.s:8-21 | it has the edi, esi, ebp, stack pointer, return address and stack words it had when it left, except the target of the receive it left in |
| `SwitchedBack.SwitchToItself` | proj2/ctxsw.s:8-21 | the same, with no exception, when resched picks the thread that calls it |
| `SwitchedBack.EbxKeptExactly` | proj2/ctxsw.s:13-15 | ebx is kept exactly if it held the address of the thread's own registers |
| `SwitchedBack.FirstEntry` | proj2/create.c:62-85 | after any run, the first switch into a created thread enters its procedure with userret as return address and all argument words in the caller's order above it |
| `SwitchedBack.MessageArrives` | proj2/message.c:47-62 | a receiver served by a send or broadcast finds the message in its own word when it next runs, whatever ran in between |
| `SwitchExample.EbxLost` | proj2/ctxsw.s:13-15 | a run in which a thread leaves, comes back and finds another ebx |
| `SwitchExample.EntryHappens` | proj2/create.c:41-88 | a run in which a created thread is entered |
| `SwitchExample.MessageSent` | proj2/message.c:46-62 | a run in which a blocked thread is sent a message and runs again |
| `ThreadLib.Mailbox.Init` | proj2/message.c:11-17 | the box is empty with an empty list |
| `ThreadLib.Mailbox.Append` | proj2/message.c:138-157 | one fresh node at the end of the list, head, tail and links right, no other node moved |
| `ThreadLib.Mailbox.RemoveHead` | proj2/message.c:50-57 | the first node leaves the list and tail is null exactly if head is |
| `ThreadLib.Kernel.constructor` | proj2/main.c:27-45 | main up to its call of ctxsw: the table and the memory are those of the start state of all runs, the registers main's own |
| `ThreadLib.Kernel.ClearTable` | proj2/main.c:34-40 | every slot has its number, the bounds of its stack of 2048 words, and state FREE |
| `ThreadLib.Kernel.SaveCurrent` | proj2/ctxsw.s:9-14 | ebp, esi and edi below the entry stack pointer and that pointer in the old thread's registers |
| `ThreadLib.Kernel.Switch` | proj2/ctxsw.s:8-21 | memory and registers after the pushes and pops are those of the switch on values |
| `ThreadLib.Kernel.NewXid` | proj2/create.c:20-35 | the loop finds the nearest free slot and leaves the cursor just past it, or where it was when there is none |
| `ThreadLib.Kernel.XthreadCreate` | proj2/create.c:41-88 | table and memory are those of a create on values, and neither changes when there is no slot |
| `ThreadLib.Kernel.PushFrame` | proj2/create.c:62-84 | the copy loop leaves the arguments in the caller's order under userret and the entry point |
| `ThreadLib.Kernel.CopyArgs` | proj2/create.c:65-70 | the copy loop leaves the arguments in the caller's order below the stack base |
| `ThreadLib.Kernel.CallSwitch` | proj2/resched.c:33 | the call with its two arguments and the switch it enters |
| `ThreadLib.Kernel.SwitchTo` | proj2/resched.c:29-33 | the slot found is the one resched picks on values, and it is running after the switch |
| `ThreadLib.Kernel.Reschedule` | proj2/resched.c:13-39 | the loop picks the first READY slot after the current one and switches to it, or reports the exit with nothing changed |
| `ThreadLib.Kernel.Handler` | proj2/main.c:14-23 | the alarm handler always finds a thread to run |
| `ThreadLib.Kernel.UserRet` | proj2/create.c:9-18 | the slot becomes free before the next thread is chosen |
| `ThreadLib.Kernel.HandOver` | proj2/message.c:46-62 | the first waiter's word gets the message, its slot READY, and its node leaves the list |
| `ThreadLib.Kernel.XthreadSend` | proj2/message.c:19-68 | box, table, memory and return value are those of a send on values; and without it: -1 with nothing changed if there is a message above zero, else 0 with the message stored, or in the first waiter's word and that waiter READY |
| `ThreadLib.Kernel.Drain` | proj2/message.c:93-118 | the draining loop serves all waiters, front first, each once, and leaves the list empty |
| `ThreadLib.Kernel.XthreadBroadcast` | proj2/message.c:71-124 | box, table, memory and return value are those of a broadcast on values; and without it: -1 or -2 with nothing changed if there is a message above zero or no waiter, else 0 with every waiter READY, the message in every waiter's word and in no other, and the list empty |
| `ThreadLib.AllServedBy` | proj2/message.c:93-118 | after a broadcast exactly the waiters' words and states have changed |
| `ThreadLib.Kernel.XthreadRecv` | proj2/message.c:126-184 | a message other than -1 is taken into the caller's word and -1 left in the box; with -1 the caller is queued last and gives up the processor still XRUN |
| `ThreadLib.Kernel.ServeNext` | proj2/message.c:93-118 | one round of the draining loop serves the next waiter |
| `MailboxLists.InitAll` | proj2/message.c:11-17 | every mailbox is empty, with an empty list |
| `MailboxLists.SendAmong` | proj2/message.c:19-68 | a send changes its own box only, and the lists still share no node |
| `MailboxLists.BroadcastAmong` | proj2/message.c:71-124 | so does a broadcast |
| `MailboxLists.RecvAmong` | proj2/message.c:126-184 | a receive may add a node to its own list, which is in no other list |
| `KernelRuns.MayResched` | proj2/resched.c:13-39 | in every run, each method that calls resched has room for the call and finds a saved stack in the slot it picks |
| `KernelRuns.MayServe` | proj2/message.c:46-62 | in every run, each waiter has a slot and a word of memory to receive into |
| `KernelRuns.StartLibrary` | proj2/main.c:27-49 | main, its first switch included, with any number of initialised mailboxes, gives the start machine of all runs |
| `KernelRuns.PerformTimer` | proj2/main.c:14-23 | the handler on the objects is the machine's step, and always finds a thread |
| `KernelRuns.PerformExit` | proj2/create.c:9-18 | so is a thread's return |
| `KernelRuns.PerformSend` | proj2/message.c:19-68 | so is a send, in all boxes, table, memory and return value |
| `KernelRuns.PerformBroadcast` | proj2/message.c:71-124 | so is a broadcast |
| `KernelRuns.PerformRecv` | proj2/message.c:126-184 | so is a receive, blocking or not, and the lists of all boxes stay apart |
| `KernelRuns.PerformSpawn` | proj2/create.c:41-88 | so is a create |
| `KernelRuns.PerformCompute` | proj2/main.c:34-40 | so is the code between calls |
| `KernelRuns.Perform` | proj2/message.c:19-184 | every step of the machine on the objects, with all mailboxes |
| `KernelRuns.Run` | proj2/message.c:19-184 | every whole run on the objects ends as on the machine, or stops exactly when it stops |
| `BlockSum.TurnsTaken` | proj4/reduction.cu:86-89 | a thread with three turns in a schedule has finished its addition |
| `BlockSum.FinishedExactly` | proj4/reduction.cu:83-92 | all active threads of a step have finished exactly if each had at least three turns |
| `BlockSum.InterleaveCells` | proj4/reduction.cu:84-92 | under any interleaving each active thread holds only values from before the step and each cell is old or the finished sum |
| `BlockSum.StepIsHalved` | proj4/reduction.cu:84-92 | every complete interleaving of a halving step gives the same cells |
| `BlockSum.HalvedSum` | proj4/reduction.cu:84-92 | a halving step keeps the sum of the active part |
| `BlockSum.ReduceShared` | proj4/reduction.cu:83-95 | the halving loop leaves in cell 0 the sum of the block, for every power of two and every interleaving |
| `BlockSum.HalvingStep` | proj4/reduction.cu:84-92 | the single instructions of the threads of one step on the shared array |
| `Reduction.SafeLaunch` | proj4/reduction.cu:70-96 | if no cell is overwritten before it is loaded, the launch stores each block's total and changes nothing else |
| `Reduction.SafeCells` | proj4/reduction.cu:70-96 | it then leaves in each cell b below the number of blocks the sum of the 256 cells from 256 b on, or of those left, and every other cell as it was |
| `Reduction.OverwriteSpoils` | proj4/reduction.cu:79-95 | for every other schedule some input gives a wrong total |
| `Reduction.LaunchCorrectIffSafe` | proj4/reduction.cu:152-155 | an in-place launch is right for all inputs exactly if no cell is overwritten before it is loaded |
| `Reduction.PassKeepsSumIffSafe` | proj4/reduction.cu:152-155 | an in-place pass keeps the sum of the cells in use for all inputs exactly under the same schedules |
| `Reduction.OneBlockSafe` | proj4/reduction.cu:153 | a launch over at most 256 cells, which is one block, cannot go wrong |
| `Reduction.AscendingSafe` | proj4/reduction.cu:153 | nor one whose blocks run in ascending order |
| `Reduction.SafeScheduleExists` | proj4/reduction.cu:153 | for every size some complete schedule is safe |
| `Reduction.RaceExists` | proj4/reduction.cu:153 | with more than one block some schedule the program allows gives a wrong total and makes a sum of 1 at least 2 |
| `Reduction.CountsTwice` | proj4/reduction.cu:79-95 | a cell overwritten before it is loaded makes the launch count some cell of the input twice |
| `Reduction.SomeCellFeeds` | proj4/reduction.cu:79-95 | under every schedule each block's total takes in some cell of the input in full |
| `Reduction.UnsafeResult` | proj4/reduction.cu:150-155 | if any launch of the host loop is unsafe the result counts some cell at least twice |
| `Reduction.ResultRightIffSafe` | proj4/reduction.cu:150-160 | the host loop returns the sum for all inputs exactly if every one of its launches is safe |
| `Reduction.WrongSum` | proj4/reduction.cu:150-160 | for more than 256 cells some schedule and input make the host loop return a wrong sum, though all its later launches are safe |
| `Reduction.TotalsSum` | proj4/reduction.cu:77-79 | the block totals add up to the sum of what the blocks cover |
| `Reduction.PaddedSum` | proj4/reduction.cu:79 | padding the last block with zeros does not change its total |
| `Reduction.BlockResult` | proj4/reduction.cu:76-95 | one block computes its total, for every interleaving of its threads |
| `Reduction.LaunchInPlace` | proj4/reduction.cu:153 | the launch on one array, load by load and store by store |
| `Reduction.OnePass` | proj4/reduction.cu:153 | an in-place launch gives what its schedule gives, and keeps the sum of the cells in use if that is safe |
| `Reduction.FirstPass` | proj4/reduction.cu:148 | the launch from one array into another stores in cell b the sum of the 256 cells from 256 b on, and so keeps the sum, under every complete schedule of loads and stores |
| `Reduction.Passes` | proj4/reduction.cu:150-155 | the host loop ends with the array of the loop on values, so with the sum in cell 0 if its launches are safe |
| `Reduction.Reduce` | proj4/reduction.cu:130-160 | the whole reduction returns what the host loop makes of the totals of the mapped whole blocks, so their sum if its launches are safe, and the sum of all the mapped input if its size is a multiple of 256 |
| `Reduction.PowersAreWhole` | proj4/reduction.cu:114-130 | every power of two from 256 up is such a multiple |
| `Elimination.SubtractedKept` | hw2/inc/nvMatrix.h:316-322 | subtracting a multiple of one row from another keeps left block = right block * m, and the original rows stay combinations of the current ones |
| `Elimination.SwapKept` | hw2/inc/nvMatrix.h:300-309 | so does a row exchange |
| `Elimination.DividedIsInverse` | hw2/inc/nvMatrix.h:362-366 | when the left block is diagonal without zeros, the divided right block is a two-sided inverse |
| `Elimination.NoPivotSingular` | hw2/inc/nvMatrix.h:287-297 | if no row offers a nonzero pivot the matrix has no inverse |
| `Elimination.ZeroRowSingular` | hw2/inc/nvMatrix.h:276-279 | a zero row means the matrix has no inverse |
| `Elimination.EarlyPivotDependent` | hw2/inc/nvMatrix.h:287-316 | no pivot left in columns 0 to 2 means the first three columns of the matrix are dependent |
| `Elimination.ThreePivotsIndependent` | hw2/inc/nvMatrix.h:285-324 | three pivots found mean they are not |
| `MatrixLib.EliminateRow` | hw2/inc/nvMatrix.h:316-322 | one row of forward elimination in place |
| `MatrixLib.BackRow` | hw2/inc/nvMatrix.h:353-358 | one row of back substitution in place |
| `MatrixLib.BackSubstitute` | hw2/inc/nvMatrix.h:349-360 | the left block becomes diagonal with the same pivots and the row relation is kept |
| `MatrixLib.Scale` | hw2/inc/nvMatrix.h:268-274 | the greatest absolute value of a row, zero exactly if its left half is |
| `MatrixLib.SelectPivot` | hw2/inc/nvMatrix.h:288-297 | the first row with the greatest scaled entry |
| `MatrixLib.BringUp` | hw2/inc/nvMatrix.h:287-309 | the first row with the greatest scaled entry is exchanged to the top, and its scale with it; a zero on top afterwards means a zero column |
| `MatrixLib.Triangulate` | hw2/inc/nvMatrix.h:285-324 | the left block becomes upper triangular and the row relation is kept, or the matrix is singular |
| `MatrixLib.Inverse` | hw2/inc/nvMatrix.h:233-369 | a two-sided inverse exactly for invertible matrices, a division by zero exactly if no row is zero and the first three columns are dependent, the identity otherwise |
| `MatrixLib.DividesByZero` | hw2/inc/nvMatrix.h:316 | a singular matrix that is not reported |
| `MatrixLib.Product` | hw2/inc/nvMatrix.h:400-412 | the triple loop gives rows times columns |
| `MatrixLib.MulAssign` | hw2/inc/nvMatrix.h:385-398 | the product with another matrix and the zero matrix for `m *= m`, so the product exactly if the operand is another matrix or the square of m is zero |
| `MatrixLib.IdentityLost` | hw2/inc/nvMatrix.h:387-388 | a matrix for which `m *= m` is not the square |
| `MatrixLib.InverseProducts` | hw2/inc/nvMatrix.h:400-412 | the product of the inverse with the matrix, in both orders, is the identity the default constructor makes |
| `MatrixLib.Transpose` | hw2/inc/nvMatrix.h:372-383 | rows become columns |
| `MatrixLib.TransposeProduct` | hw2/inc/nvMatrix.h:372-383 | a product transposes to the transposed factors in the other order |
| `MatrixLib.TransposeInverse` | hw2/inc/nvMatrix.h:372-383 | transposing commutes with inverting |
| `Quaternions.UnitTimes` | hw2/inc/nvQuaternion.h:346-356 | multiplying by i, j or k moves and negates the components as i * j = k, j * k = i and k * i = j require, and multiplying by 1 changes nothing |
| `Quaternions.LinearLeft` | hw2/inc/nvQuaternion.h:346-356 | the product is linear in its left factor, so with the four units every product is settled |
| `Quaternions.MulAssoc` | hw2/inc/nvQuaternion.h:346-356 | the product is associative |
| `Quaternions.NormMul` | hw2/inc/nvQuaternion.h:346-356 | the squared norm of a product is the product of the squared norms |
| `Quaternions.ConjMul` | hw2/inc/nvQuaternion.h:369-376 | the conjugate of a product is the product of the conjugates in the other order |
| `Quaternions.RotateIsSandwich` | hw2/inc/nvQuaternion.h:383-396 | mult_vec is q * v * conjugate(q), as its comment says |
| `Quaternions.RotateCompose` | hw2/inc/nvQuaternion.h:387-396 | mult_vec by a product is mult_vec by the right factor and then by the left |
| `Quaternions.RotateLength` | hw2/inc/nvQuaternion.h:387-396 | lengths are scaled by the squared norm of the quaternion |
| `Quaternions.ConjUndoes` | hw2/inc/nvQuaternion.h:378-396 | mult_vec by the conjugate undoes it up to the fourth power of the norm |
| `Quaternions.MatrixRotates` | hw2/inc/nvQuaternion.h:160-198 | the matrix times v, scaled by the squared norm, is mult_vec, for every q other than 0 |
| `Quaternions.MatrixOfProduct` | hw2/inc/nvQuaternion.h:160-198 | the matrix of a product acts as the product of the matrices |
| `Quaternions.ConjTransposes` | hw2/inc/nvQuaternion.h:160-198 | the matrix of the conjugate is the transposed matrix |
| `Quaternions.ConjMatrixUndoes` | hw2/inc/nvQuaternion.h:160-198 | and undoes it |
| `Quaternions.GetMatrix` | hw2/inc/nvQuaternion.h:160-198 | all sixteen entries are written |
| `Quaternions.Quaternion.MulAssign` | hw2/inc/nvQuaternion.h:346-356 | the product with another quaternion; with itself, what the overwritten components give |
| `Quaternions.SelfMulExactly` | hw2/inc/nvQuaternion.h:346-356 | the condition under which `q *= q` is the square, both directions |
| `Quaternions.Quaternion.Product` | hw2/inc/nvQuaternion.h:346-356 | on a copy the product is always right |
| `Quaternions.Quaternion.Conjugate` | hw2/inc/nvQuaternion.h:369-376 | a fresh conjugate, the argument unchanged |
| `Quaternions.Quaternion.MultVec` | hw2/inc/nvQuaternion.h:387-396 | the rotated vector in another array |
| `Quaternions.Quaternion.MultVecInPlace` | hw2/inc/nvQuaternion.h:398-401 | the in-place form gives the same vector |
| `BandMultiply.BandStarts` | proj1/mm_thr.c:31-39 | the loop stores the starting row of every band |
| `BandMultiply.StartsDisjoint` | proj1/mm_thr.c:35-39 | no two bands share a row |
| `BandMultiply.BandsFit` | proj1/mm_thr.c:31-39 | all bands lie below row threads * (dim / threads), inside the matrix |
| `BandMultiply.StepKeeps` | proj1/mm_thr.c:73-82 | one instruction of any thread keeps every thread's finished cells and all untouched zeros |
| `BandMultiply.RunKeeps` | proj1/mm_thr.c:41-53 | so does every interleaving |
| `BandMultiply.BandsComputed` | proj1/mm_thr.c:31-53 | after the joins the covered rows are those of a * b and the others are zero, for every thread count and interleaving |
| `BandMultiply.TurnsAreProgress` | proj1/mm_thr.c:73-82 | a thread's progress is its number of turns, up to the work of its band |
| `BandMultiply.DoneExactly` | proj1/mm_thr.c:50-53 | all threads have ended exactly if each had enough turns, in whatever order |
| `BandMultiply.ProductExactly` | proj1/mm_thr.c:31-53 | the result is the whole product exactly if the thread count divides dim or the rows left out of it are zero |
| `BandMultiply.Calculate` | proj1/mm_thr.c:63-83 | one thread alone computes its band and leaves the other rows as they were |
| `BandMultiply.TermsUnitRight` | proj1/mm_thr.c:77-79 | the inner sum with a b that is one at (u, v) and zero elsewhere picks entry (r, u) of a for column v |
| `BandMultiply.TermsUnitLeft` | proj1/mm_thr.c:77-79 | the same for such an a |
| `BandMultiply.TermsLinearRight` | proj1/mm_thr.c:77-79 | the inner sum is linear in b |
| `BandMultiply.TermsLinearLeft` | proj1/mm_thr.c:77-79 | and in a |
| `BandMultiply.UnitOnTheRight` | proj1/mm_thr.c:31-53 | after all joins a covered cell (r, q) of c is a(r, u) if q is v and 0 otherwise, when b is one at (u, v) and zero elsewhere, for every interleaving |
| `BandMultiply.UnitOnTheLeft` | proj1/mm_thr.c:31-53 | it is b(v, q) if r is u and 0 otherwise, when a is |
| `BandMultiply.LinearInRight` | proj1/mm_thr.c:31-53 | the covered cells of c are linear in b, whatever the interleavings |
| `BandMultiply.LinearInLeft` | proj1/mm_thr.c:31-53 | and in a |
| `BandMultiply.OnesGiveDim` | proj1/mm_thr.c:20-53 | on the program's own input of ones every covered cell is dim |
| `ListSum.LeastLoaded` | proj4/ldshr.c:66-84 | the first least loaded machine below 1.0 other than the excluded one, or 0 |
| `ListSum.LeastIs` | proj4/ldshr.c:66-84 | a pick has a load no higher than any other machine below 1.0 and lower than those before it, is not the excluded one, and is 0 when there is none |
| `ListSum.PickServers` | proj4/ldshr.c:66-84 | the least and the second least loaded machine in that sense |
| `ListSum.DistinctServers` | proj4/ldshr.c:66-84 | the two picks differ exactly if a machine other than the first has a load below 1.0 |
| `ListSum.Split` | proj4/ldshr.c:107-135 | two well-formed lists with the even and the odd positions, in order |
| `ListSum.DecodeEncoded` | proj4/ldshr_xdr.c:8-18 | decoding an encoded list gives it back and leaves the rest of the stream |
| `ListSum.UnitsOnTheWire` | proj4/ldshr_xdr.c:8-18 | the bytes by position: eight for each value, its own four and then 0 0 0 1, or 0 0 0 0 after the last |
| `ListSum.EncodeDecoded` | proj4/ldshr_xdr.c:8-18 | a stream with flags 0 and 1 starts with the encoding of the list read from it |
| `ListSum.CutOffRefused` | proj4/ldshr_xdr.c:13-16 | a stream that ends inside the list is refused, wherever it ends |
| `ListSum.PutNode` | proj4/ldshr_xdr.c:8-18 | the recursion writes the encoding of the linked list |
| `ListSum.GetNode` | proj4/ldshr_xdr.c:8-18 | the recursion builds a well-formed list of fresh nodes with the decoded values, and fails exactly when decoding does |
| `ListSum.MapList` | proj4/ldshr_svc_proc.c:43-50 | every value mapped once in place, the links kept |
| `ListSum.ReduceList` | proj4/ldshr_svc_proc.c:59-69 | the total of the list |
| `ListSum.EqualValuesTotal` | proj4/ldshr_svc_proc.c:59-69 | values that all stand for v total v times their number |
| `ListSum.Serve` | proj4/ldshr_svc_proc.c:29-38 | the total of the mapped list on the wire |
| `ListSum.Remote` | proj4/ldshr.c:18-21 | a remote call returns the total of the mapped caller's list |
| `ListSum.HalvesTotal` | proj4/ldshr.c:118-133 | the two halves add up to the whole |
| `ListSum.MappedHalves` | proj4/ldshr.c:137-146 | and so do the mapped halves to the mapped whole |
| `ListSum.Compute` | proj4/ldshr.c:137-146 | the two packets' values, one overwritten by the other when both picks are the same machine |
| `ListSum.Distributed` | proj4/ldshr.c:107-146 | with two servers the answer is the mapped total of the input, with one server twice that of the odd positions |
| `SparseNorm.MatNormInf` | hw2/inc/helper_cusolver.h:46-62 | the greatest row sum of absolute values of a column-major matrix |
| `SparseNorm.CsrMatNormInf` | hw2/inc/helper_cusolver.h:67-91 | the greatest sum of absolute values stored for a row, for any index base |
| `SparseNorm.RowAgrees` | hw2/inc/helper_cusolver.h:79-89 | a stored row sums to at least its dense row, and to exactly that when its columns are distinct and inside the matrix |
| `SparseNorm.NormsAgree` | hw2/inc/helper_cusolver.h:46-91 | the sparse norm is never below the dense one, and equal to it when columns are distinct and inside |
| `SparseNorm.RowIs` | hw2/inc/helper_cusolver.h:81-87 | row i of the sparse norm sums the absolute values of exactly the entries from rowPtr[i] - base up to rowPtr[i + 1] - base |
| `SparseNorm.RowsCover` | hw2/inc/helper_cusolver.h:79-89 | when the row pointers run from base to base plus the number of values, the row sums add up to the sum of the absolute values of all values |
| `SparseNorm.DenseEntries` | hw2/inc/helper_cusolver.h:81-84 | the dense row has each value of that range in the column stored with it, less the base, and zero in every other column |
| `SparseNorm.BaseDoesNotMatter` | hw2/inc/helper_cusolver.h:76-84 | with base, row pointers and columns one higher neither norm changes |
| `SparseNorm.FiveAndSeven` | hw2/inc/helper_cusolver.h:46-91 | a row with 5 and -7, stored both ways, has norm 12 in both and meets every condition of the theorems above |
| `SparseNorm.ColumnMajor` | hw2/inc/helper_cusolver.h:56 | the dense norm reads entry (i, j) in column j of a matrix stored column after column |
| `SparseNorm.DenseSumOf` | hw2/inc/helper_cusolver.h:54-58 | its row sums are the sums of the absolute values of the rows of such a matrix |
| `Bank.PutUint32` | proj3/client.go:150-153 | four bytes of the buffer, most significant first |
| `Bank.SendUpdate` | proj3/client.go:134-156 | the twelve bytes of an update request |
| `Bank.SendQuery` | proj3/client.go:82-104 | the eight bytes of a query |
| `Bank.DecodedWord` | proj3/server.c:178-197 | the server reads the low half of a command or account and the high half of an amount; exactly the words below 65536, and those with a zero low half, arrive whole |
| `Bank.PostedRec` | proj3/server.c:223-240 | each record after an update is the record before, credited if its account matches |
| `Bank.PostedBytes` | proj3/server.c:232-240 | no byte but 24 to 27 of matching records changes |
| `Bank.UpdateRecord` | proj3/server.c:218-256 | one round of the update loop on the file |
| `Bank.Update` | proj3/server.c:216-263 | the loop credits every matching record once and replies what a query would now reply |
| `Bank.Query` | proj3/server.c:289-305 | the matching records, last first, or one "not found" |
| `Bank.QueryAfterUpdate` | proj3/server.c:216-299 | a later query sees the amount added exactly in the replies for the updated account |
| `Bank.QueryOnRecords` | proj3/server.c:26-32 | on any file of sixteen records of account, twenty bytes of name, value and age, a query answers name, account and value of the records with the account, last first, or that there is none |
| `Bank.UpdateOnRecords` | proj3/server.c:216-257 | an update of such a file adds to the value of the records with the account and changes nothing else |
| `Bank.EveryFile` | proj3/server.c:219-220 | every file of at least sixteen times 32 bytes is such a file |
| `Bank.RecordServed` | proj3/server.c:223-240 | a record whose bytes are account, name, value and age is answered with them and gets the amount added to its value, in bytes |
| `Bank.RecordLeft` | proj3/server.c:223-263 | a record that does not start with the bytes of the account is not changed, and "not found" is the answer exactly if none does |
| `Bank.CommandBytes` | proj3/client.go:83-101 | a query starts with the bytes 0 0 3 232 and an update with 0 0 3 233, and the server recognises them by these |
| `Bank.Serve` | proj3/server.c:170-312 | the dispatch on the command word; other commands change and send nothing |
| `Bank.ClientUpdate` | proj3/client.go:134-156 | from the client's command to the file, through the twelve bytes |
| `Bank.ClientQuery` | proj3/client.go:82-104 | from the client's query to the replies, the file unchanged |
| `Image.ScanDecimal` | hw2/inc/helper_image.h:187 | a printed number is scanned back, up to the first byte that is not a digit |
| `Image.AnyLayout` | hw2/inc/helper_image.h:172-197 | however the three numbers are spread over lines, with lines without effect between, the loop finds them and stops at the pixels |
| `Image.LineSkippedExactly` | hw2/inc/helper_image.h:172-197 | a header line has no effect, wherever it stands, exactly if every buffer full of it starts with a # or with something that is no number |
| `Image.ShortComment` | hw2/inc/helper_image.h:180-183 | a comment that fits the buffer has none |
| `Image.CommentMisread` | hw2/inc/helper_image.h:174-196 | a long comment whose tail is taken for the header |
| `Image.BlankStepsBack` | hw2/inc/helper_image.h:185-196 | a line without a number takes the counter one back, around zero |
| `Image.LongCommentSplit` | hw2/inc/helper_image.h:174-183 | what does not fit the buffer of a long comment is read as a line of its own |
| `Image.BlankLineEnds` | hw2/inc/helper_image.h:185-188 | a blank line before the first number ends the header with a picture of no size; after it, the next number is taken for the width |
| `Image.LayoutLoaded` | hw2/inc/helper_image.h:131-223 | the reader on every such file |
| `Image.Save` | hw2/inc/helper_image.h:289-337 | the bytes written, and nothing but failure for other channel counts |
| `Image.LoadedSaved` | hw2/inc/helper_image.h:305-324 | reading what was written gives width, height, channels and the bytes written |
| `Image.SavedBytes` | hw2/inc/helper_image.h:309-322 | the file in bytes: 80, 53 or 54, 10, the width, 10, the height, 10, 50 53 53, 10 and the data |
| `Image.TwoByOne` | hw2/inc/helper_image.h:309-322 | the file of a picture of two by one pixels, byte for byte |
| `Image.LoadedBytes` | hw2/inc/helper_image.h:145-197 | files in bytes, with byte 10 or byte 32 between the numbers, or with a comment line before them, give the dimensions and the data |
| `Image.TwoByOneLoaded` | hw2/inc/helper_image.h:145-197 | such a file of two by one pixels, byte for byte |
| `Image.NumberBytes` | hw2/inc/helper_image.h:187 | bytes 9 to 13 and 32 may stand before a number, 43 and 45 are its signs, and any other byte that is no digit is no number |
| `Image.OnlyPixmaps` | hw2/inc/helper_image.h:151-164 | only a file that starts with P5 or P6 is read, and that says how many channels there are |
| `Image.AllPixelsExactly` | hw2/inc/helper_image.h:319-324 | all pixels survive exactly if their number is below 2^32 |
| `Image.Load` | hw2/inc/helper_image.h:131-223 | success, dimensions and data are those of the file, fewer bytes when the file is short |
| `Image.ScanLine` | hw2/inc/helper_image.h:185-196 | the scan that fits the counter, with its wrap-around |
| `Image.Strip` | hw2/inc/helper_image.h:362-373 | every fourth byte dropped |
| `Image.Pad` | hw2/inc/helper_image.h:936-949 | a zero after every three bytes |
| `Image.StrippedPadded` | hw2/inc/helper_image.h:936-949 | stripping undoes padding |
| `Image.PaddedStripped` | hw2/inc/helper_image.h:362-373 | padding after stripping keeps the colours and clears the fourth byte |
| `Image.AllWritten` | hw2/inc/helper_image.h:319-324 | all three colours of every pixel are written exactly if they number less than 2^32, for all widths and heights |
| `Image.SavePPM4ub` | hw2/inc/helper_image.h:358-378 | the file written reads as the stripped picture, as far as the unsigned size goes; nothing is written when the count of pixels comes out negative |
| `Image.ShortExactly` | hw2/inc/helper_image.h:936-949 | for which widths and heights the padding loop goes over more than was allocated |
| `Image.LoadPPM4ub` | hw2/inc/helper_image.h:927-959 | how it ends on every file, and for each byte of the result whether it is a colour of the file or zero |
| `Image.FourChannels` | hw2/inc/helper_image.h:927-959 | for a buffer of any size that holds what is counted, writing and reading back gives the same colours, as far as they were written, with the fourth byte zero; all of the picture exactly if its colours number less than 2^32 |

## Left out

- Signals, ualarm timing, printf and failures of malloc in `proj2`: preemption is a step that may happen between any two library calls, and freed nodes are merely unreachable.
- Real atomicity: steps are whole calls. The five windows named above are followed one alarm at a time; not followed are alarms inside the loop of newxid, between its choice of a slot and create.c:60, between the instructions of ctxsw, or twice within one call.
- Stack overflow: running code is assumed to stay inside its own stack and to hand out only pointers it may write, as `Permitted` in `MachineRuns.dfy` spells out.
- `struct xentry` is one array per field, and `xregs[SP]` a memory word; the other register slots are never used by the source.
- Reschedule: `next` and `i` are unbounded integers; the source's counters stay below twice the number of slots.
- Inverse: does not model IEEE arithmetic, so a zero pivot in columns 0 to 2 ends the model instead of going on with quotients of zero by zero.
- Reduce: does not model sizes below 256, for which the source launches no block, nor the random input and the CPU comparison.
- Rounding everywhere: reals are exact, and in `Bank` and `ListSum` the float operations are parameters.
- Calculate: does not model 32-bit overflow of the sums.
- Quaternion set_value from a matrix, from an axis or from two vectors, slerp and normalize: they need square roots and angles, and the matrix form does not invert get_value.
- Distributed: does not model fewer than two values, for which the source follows a null pointer, and assumes each reply is read before the next call overwrites it.
- Decoded: takes any flag other than 0 as "a node follows", as the XDR library does; the library is not part of this repository.
- The GPU branch of the load sharer, load sampling, RPC stubs and dispatch, and `xdr_values`, three integers in a row.
- ClientUpdate: assumes the request arrives in one piece and a file of sixteen records; replies are the fields of a record, not the text sprintf makes of them.
- Concurrent children of the bank server: the record is read before the lock is taken, so updates by two children can be lost.
- Service registration, sockets and the UDP protocol of `proj3`.
- Load: does not model a failing malloc, a size_t of other than 64 bits, a buffer supplied by the caller, nor numbers that do not fit 64 bits; larger than 32 bits they are cut.
- LoadPPM4ub: for the sizes in `TooShort` it says that the padding loop goes past its buffer, not what it finds there; colours a short file does not hold are left open.
- `proj2/xmain.c`, `hw1`, the pthread and fork timing programs, and the CUDA, OpenGL and window headers of `hw2`.
