# A model of the yesos kernel

yesos is a small x86 kernel: ten processes, four text terminals, a read-only file system and a
shared real-time clock.  This project models its state machines in Dafny and proves what they keep
over whole runs.  Where the source is imperative the model is too: classes with the source's
fields, arrays for its byte buffers and rings, sequence-valued fields for its tables of PCBs, page
entries and terminals, its loops with their invariants.  Each such method is proved against a
specification function, and the theorems are about those functions.

The files, by component:

* `Ring.dfy` - the circular buffers of `queue.h`, for any element type and size.
* `Pids.dfy`, `Lifecycle.dfy`, `LifecycleProofs.dfy`, `Dispatching.dfy`, `Runs.dfy`,
  `Fairness.dfy`, `Effects.dfy`, `Contexts.dfy`, `Counting.dfy`, `Kernel.dfy` - processes and the
  scheduler.  `Lifecycle.dfy` has the steps (tick, yield, execute, spawn, halt) and the invariant;
  `Kernel.dfy` is the code on real rings and a bitmap.
* `LineDiscipline.dfy`, `Terminal.dfy`, `Echoing.dfy`, `Screen.dfy` - one terminal: keys, lines, their
  echo, the scrolling screen.
* `Paging.dfy`, `PageTables.dfy`, `Multiplex.dfy`, `MultiplexProofs.dfy`, `MultiplexRuns.dfy`,
  `VideoWindows.dfy`, `VideoMemory.dfy`, `TermSwitch.dfy`, `Privacy.dfy`, `PrivateSessions.dfy` - page
  tables, isolation, four terminals sharing one video memory, and who can reach whose screen.  `Coupling.dfy` ties their processes to
  the scheduler's.
* `RtcFields.dfy`, `RtcDevice.dfy`, `RtcChain.dfy` - the virtual clocks and their chain.
* `FileSystem.dfy`, `Mkfs.dfy`, `Numbers.dfy` - indexed reads, images to read, and number printing.
* `Limits.dfy`, `Bytes.dfy`, `Options.dfy`, `Sequences.dfy` - what the parts share.

## Main results

* Lifecycle.  The invariant: live processes form chains of parents; each live process without a
  live child is exactly once running or queued; no waiting parent is; queued live processes and
  only they have a saved context; queued pids that are not live are marked dead; the count and the
  bitmap agree.  `Runs.StepExact` and `Runs.RunExact` show that it holds along a run if and only if
  each step's guard holds.  The guards are: no queue overflow, only leaves halt, and a pid handed
  out is not still queued.  `Runs.StalePidReachable` and `Runs.FullQueueReachable` are runs from boot
  that violate the last and the first.  The count and the bitmap alone agree under the weaker
  condition that only live pids are halted (`Counting.RunCounts`), and then the pid allocator never
  fails (`Counting.AllocatorNeverFails`).
* Scheduling.  The two queues are one queue (`Fairness.SwitchIsFifo`), waiting is bounded
  (`Fairness.BoundedWaiting`), the processor changes hands exactly when it should and to whom it
  should (`Effects.StepHands`), and every process is entered and resumed with its own frame
  (`Contexts.RunFaithful`).  The scheduler's leaves are the terminals' newest processes
  (`Coupling.LeafIsNewest`).
* Line discipline.  The reader's prefix edited by the pending keys is the edit of all keystrokes,
  throughout a session, if and only if no keystroke is one of the odd cases of the driver and no
  line is cut off at the reader's size (`LineDiscipline.RunExact`).  The echo has an exact condition
  of its own (`Echoing.EchoRun`).
* Screen.  Video memory is a window onto an endless sheet if and only if no backspace arrives at
  the home cell (`Screens.PutcExact`, `Screens.RunExact`).
* Multiplexing.  In guarded sessions four terminals on one video memory behave as four screens from
  boot on (`MultiplexRuns.BootRefines`).  The guards are exact (`MultiplexRuns.StepExact`): a call
  keeps the state consistent if and only if vidmap, execute and the exit of a last shell come from
  the foreground, no root is spawned on top of other processes, and no program fails to load once
  its terminal is open; and a store by user code lands on its own screen if and only if the window
  leads there.  From its vidmap until its exit a process has a window onto its own screen
  (`VideoWindows.WindowLasts`).
* Isolation.  After any remappings a process reaches its own page and screen memory only
  (`Paging.UserIsolation`).  Which screens is exactly a matter of its two windows
  (`Privacy.ReachExact`), and a reused pid inherits the windows of its predecessor, through which its
  program can write on another terminal (`Privacy.OtherScreenReached`).  In sessions that hand out no
  such pid every process is confined to its own screen, and the four screens are independent whatever
  user code stores (`PrivateSessions.PrivateSession`).
* Clock.  Over every interleaving ticks are conserved if and only if the schedule of reads keeps up
  (`RtcDevice.Conservation`), a read returns if and only if a tick has fallen due since the last one
  (`RtcDevice.TickedExact`), and the chain is exactly the open devices after every operation
  (`RtcChains.Descriptors`).
* Files.  Indexed reads are flat reads (`FileSystem.ReadData`), and they compose
  (`FileSystem.ReadsCompose`).  Reading an image written from the layout gives back its files
  (`Mkfs.RoundTrip`).

## Where the source differs from what one would expect

* A ring declared with size n holds n - 1 elements (`student-distrib/queue.h:68`), and peeking at
  the tail does not wrap (`student-distrib/queue.h:166`): at slot 0 it reads the byte in front of
  the buffer, a parameter of the model.
* A failed rescue spawn answers -1, which the unsigned comparison takes for a pid, so the loop
  retries (`student-distrib/sched.c:203-205`).
* A backspace after Ctrl-L takes the clear mark back and revives the line
  (`student-distrib/term.c:417-426`).
* A backspace queued while the reader sleeps is echoed when the reader takes it out, and then erases
  whatever was typed last (`student-distrib/term.c:260-266`).
* A clock request of 0 is refused because the processor takes shift counts modulo 32; requests from
  2^11 on are accepted with the exponent kept in four bits (`student-distrib/rtc.c:312-326`).
* The inode just past the last passes the bounds check (`student-distrib/file_sys.c:235`).
* Execute zeroes the PCB of a pid but not its page directory (`student-distrib/syscall_impl.c:315`).
* A program that fails to load has already been booked on its terminal
  (`student-distrib/syscall_impl.c:346`, `student-distrib/syscall_impl.c:411-422`).
* Opening a terminal and vidmap use the foreground terminal, not the caller's
  (`student-distrib/term.c:192`, `student-distrib/syscall_impl.c:215`).

## Model

| member | source | states |
|---|---|---|
| `Rings.PointerMacros` | student-distrib/queue.h:22-39 | for every ring size, the modular expressions that move and compare the pointers are a step forward, a step back and a distance, each with its one wrap |
| `Rings.Ring.constructor` | student-distrib/queue.h:47-85 | a ring declared with size n holds nothing and has room for n - 1 |
| `Rings.Ring.Init` | student-distrib/queue.h:81-85 | forgets all elements and puts the tail in slot 0 |
| `Rings.Ring.Push` | student-distrib/queue.h:93-102 | refines a bounded deque: fails exactly at n - 1 elements and then changes nothing, otherwise appends |
| `Rings.Ring.Pop` | student-distrib/queue.h:110-119 | takes the oldest element; fails exactly when empty and then leaves the caller's variable alone |
| `Rings.Ring.PopTail` | student-distrib/queue.h:127-136 | takes the newest element, wrapping backwards; fails exactly when empty |
| `Rings.Ring.Peek` | student-distrib/queue.h:144-152 | the oldest element, with nothing changed |
| `Rings.Ring.PeekTail` | student-distrib/queue.h:160-168 | agrees with the pop from the tail except when the tail is in slot 0, where it sees what lies in front of the buffer |
| `Pids.BitOfWith` | student-distrib/proc.h:235 | setting one bit of the bitmap changes that bit and no other |
| `Pids.BitOfWithout` | student-distrib/proc.h:243-246 | clearing one bit of the bitmap changes that bit and no other |
| `Pids.MembersOps` | student-distrib/proc.h:225-246 | on pids 1 to 10 the bitmap is a set: or-ing a bit inserts, and-ing its complement removes |
| `Pids.GetFirstFreePid` | student-distrib/proc.h:225-238 | the search loop returns the least free pid and marks exactly it, and returns -1 exactly when all ten are taken |
| `Pids.StackFindsPcb` | student-distrib/proc.h:155-170 | masking any stack pointer of a process's kernel stack gives the PCB that its pid gives, and only addresses of its own slot do |
| `Pids.SlotsDisjoint` | student-distrib/proc.h:300-307 | the 8 KB slots of different pids do not overlap and lie in the kernel page |
| `LifecycleProofs.ExecExact` | student-distrib/syscall_impl.c:259-426 | execute keeps the lifecycle invariant exactly when the pid it takes is not still in a queue |
| `LifecycleProofs.SpawnExact` | student-distrib/syscall_impl.c:259-426 | starting a root keeps the invariant exactly when its pid is not still queued and the push of it fits, or when the push is lost to a full queue and a stale entry of the same pid stands in for it |
| `LifecycleProofs.ChainsGrow` | student-distrib/syscall_impl.c:259-426 | a new child of a leaf, or a new root, keeps the live processes in acyclic chains of parents |
| `LifecycleProofs.ChainsShrink` | student-distrib/syscall_impl.c:428-500 | removing a leaf keeps the chains, and its parent is the only process that becomes a leaf |
| `LifecycleProofs.ParentWaits` | student-distrib/syscall_impl.c:452-457 | the parent of a live process is live, not running, not queued and without a saved context |
| `LifecycleProofs.LeafGone` | student-distrib/syscall_impl.c:428-500 | any state that a leaf has left, with its parent made runnable and everyone else as before, satisfies the invariant: the common core of all halts |
| `LifecycleProofs.HaltRunningChild` | student-distrib/syscall_impl.c:475-483 | a running child that halts hands over to its waiting parent and the invariant holds |
| `LifecycleProofs.HaltOtherChild` | student-distrib/syscall_impl.c:485-499 | killing a child that is not running queues its parent and keeps the invariant |
| `LifecycleProofs.HaltOtherRoot` | student-distrib/syscall_impl.c:458-473 | killing a root that is not running leaves a dead entry behind and keeps the invariant |
| `Dispatching.DispatchFirst` | student-distrib/sched.c:181-245 | the two queues are one first-in first-out queue: the loop drops the dead entries in front and resumes the first live one with the frame saved for it |
| `Dispatching.DispatchDrained` | student-distrib/sched.c:181-223 | with no live entry the loop ends up where it would with empty queues |
| `Dispatching.DispatchRescue` | student-distrib/sched.c:201-210 | on empty queues the loop enters the first rescue shell that loads, with that shell's first frame, and spins if none does |
| `Dispatching.PidAvailable` | student-distrib/syscall_impl.c:297-314 | while the process count is below its bound the pid allocator cannot fail |
| `Dispatching.SomeoneRuns` | student-distrib/sched.c:151-248 | while there are processes one of them runs or is queued |
| `Dispatching.DispatchKeeps` | student-distrib/sched.c:181-248 | the loop never takes the bad-pid or no-context exit, keeps the invariant, and spins exactly if there is no process left and no rescue shell loads |
| `Dispatching.ContextSwitchKeeps` | student-distrib/sched.c:151-248 | a switch with room in the expired queue ends, keeps the invariant, and returns without switching exactly when there is no process |
| `Dispatching.DyingRootSwitches` | student-distrib/syscall_impl.c:238-246 | a root that halts itself never takes the sleeping branch of the yield; it switches, or spins if it was the last process and no shell loads |
| `Dispatching.FullQueueLoses` | student-distrib/sched.c:167-170 | a switch with a full expired queue loses the running process |
| `Runs.HaltExact` | student-distrib/syscall_impl.c:428-500 | halting keeps the invariant exactly for a live leaf, with room for its parent if it is not the running process |
| `Runs.DeadHalts` | student-distrib/syscall_impl.c:428-439 | halting a pid that is not live breaks the count |
| `Runs.WakeLost` | student-distrib/syscall_impl.c:485-494 | killing a child while the expired queue is full loses its parent |
| `Runs.OrphanBreaks` | student-distrib/syscall_impl.c:428-500 | killing a process that has a live child breaks the invariant |
| `Runs.SwitchExact` | student-distrib/sched.c:151-248 | a switch keeps the invariant exactly when nothing runs or the expired queue has room |
| `Runs.StepExact` | student-distrib/syscall_impl.c:233-500 | every kernel step keeps the invariant if and only if its guard, a test on the state before it, holds |
| `Runs.OnlyRescueSpins` | student-distrib/sched.c:201-210 | a guarded step fails to end in exactly one case: the last process halts itself and no rescue shell loads |
| `Runs.BootIsGood` | student-distrib/sched.c:36-47 | the state after scheduler initialisation satisfies the invariant |
| `Runs.RunExact` | student-distrib/syscall_impl.c:233-500 | over every run, the invariant holds in all states up to any point if and only if all guards up to there held |
| `Runs.OverflowNeedsEveryPid` | student-distrib/sched.c:53-81 | under the invariant a queue overflows only if all nine other pids are in it, and waking a parent never overflows |
| `Runs.StalePidReachable` | student-distrib/syscall_impl.c:439-450 | a state reached from boot in which the invariant is broken though the count is right: a shell that never ran is killed, and its pid is given out while still queued |
| `Runs.FullQueueReachable` | student-distrib/sched.c:167-170 | a good state reached from boot in which nine shells have expired and the tenth runs, and every switch loses it |
| `Counting.DispatchOff` | student-distrib/sched.c:181-223 | the scheduler's loop, from any state and with any rescue shells, keeps the difference between the counter and the number of set bits |
| `Counting.StepCounts` | student-distrib/syscall_impl.c:297-439 | from any state in which counter and bitmap agree, a step keeps them in agreement if and only if it does not halt a pid that is not live, whatever the queues and parents are like |
| `Counting.RunCounts` | student-distrib/syscall_impl.c:297-439 | over every run, counter and bitmap agree up to any point if and only if no dead pid was halted before it |
| `Counting.AllocatorNeverFails` | student-distrib/proc.h:225-238 | in every such run from boot the allocator's failure path is dead: a file that is there is refused exactly when ten processes live |
| `Fairness.SwitchIsFifo` | student-distrib/sched.c:134-223 | with active followed by expired as one queue, a switch appends the running process, drops the dead prefix, dispatches the next live pid, and loads exactly the frame saved for it |
| `Fairness.StepMoves` | student-distrib/sched.c:53-81 | a queued process that a step does not dispatch or kill moves forward by one per switch and back by at most one per spawned root |
| `Fairness.BoundedWaiting` | student-distrib/sched.c:151-248 | in every guarded run a live process at position k is dispatched or killed within k + 1 + m switches, m being the roots spawned meanwhile |
| `Effects.YieldExact` | student-distrib/syscall_impl.c:233-250 | yielding returns at once if and only if nobody else is queued; otherwise the first live process of the one queue gets the processor with its frame, the yielding one included when all others in the queue are dead |
| `Effects.ChildReturns` | student-distrib/syscall_impl.c:475-484 | when the running child halts its parent runs at once, in its call of execute, with the child's status as the result |
| `Effects.StepHands` | student-distrib/sched.c:151-248 | in every guarded step the processor changes hands exactly on a tick, on a yield with others queued, on an execute that starts and on the exit of the running process, to exactly the process and the frame it should; on every other step the caller goes on |
| `Effects.StepPopulates` | student-distrib/syscall_impl.c:298-423 | after every guarded step exactly the processes live that should, each with the parent it should have: a program starts if and only if it is sound and fewer than ten processes live, and the last shell is replaced by a new one |
| `Effects.SpawnQueues` | student-distrib/syscall_impl.c:386-410 | a spawned root is queued behind the active processes and in front of the expired ones, with its first frame, and nobody else's place or frame changes |
| `Contexts.StepFaithful` | student-distrib/sched.c:176-245 | every guarded step keeps the saved frames equal to the last ones owed; a frame is loaded exactly when the processor changes hands, and it is exactly the right one: the program's first one on execute, the rescue shell's when the last process halts, and otherwise the one owed to the resumed process, its last saved one or its call of execute with the child's status |
| `Contexts.SwitchFrames` | student-distrib/sched.c:176-236 | a switch saves the frame of the process it leaves, clears that of the one it enters, and touches no other |
| `Contexts.HaltChildFaithful` | student-distrib/syscall_impl.c:456-494 | a parent whose child halts is owed its execute frame with the status as result; it runs at once with that frame if and only if the child was running, and is queued with it otherwise |
| `Contexts.RunFaithful` | student-distrib/syscall_impl.c:233-500 | over every guarded run, in every state on the way the PCBs hold exactly the frames owed, and every frame that is loaded is the right one |
| `Kernels.Kernel.constructor` | student-distrib/sched.c:36-47 | initialisation, on real rings and a bitmap, gives the boot state |
| `Kernels.Kernel.PushToActive` | student-distrib/sched.c:53-64 | appends to the active queue, or answers 255 and loses the pid when that is full |
| `Kernels.Kernel.PushToExpired` | student-distrib/sched.c:70-81 | appends to the expired queue, or answers 255 and loses the pid when that is full |
| `Kernels.Kernel.SwapQueues` | student-distrib/sched.c:134-139 | exchanges the two queues |
| `Kernels.Admit` | student-distrib/syscall_impl.c:295-347 | takes the least free pid and fills its PCB; on a failed load the pid and the count are given back and only the dead slot has changed |
| `Kernels.Kernel.ExecChild` | student-distrib/syscall_impl.c:259-426 | the code refines the execute step, with the pid or -1 as result |
| `Kernels.Kernel.ExecRoot` | student-distrib/syscall_impl.c:259-426 | the code refines the spawn step, with the pid or -1 as result |
| `Kernels.Kernel.TakeNext` | student-distrib/sched.c:181-187 | swap-if-empty then pop takes the head of active followed by expired, and fails exactly when both are empty, so the second swap is dead code |
| `Kernels.Kernel.Pass` | student-distrib/sched.c:181-245 | one turn of the loop ends as specified or makes progress towards the same outcome |
| `Kernels.Kernel.NextProcess` | student-distrib/sched.c:181-248 | the goto loop terminates and refines the dispatch specification |
| `Kernels.Kernel.FileRunning` | student-distrib/sched.c:165-178 | queues the running process, or clears its dead mark, and saves its frame |
| `Kernels.Kernel.SwitchContext` | student-distrib/sched.c:151-248 | the scheduler refines the switch step |
| `Kernels.Kernel.SysSched` | student-distrib/syscall_impl.c:233-250 | yielding refines its step: it sleeps exactly when processes exist and both queues are empty |
| `Kernels.Kernel.HaltInternal` | student-distrib/syscall_impl.c:428-500 | halting refines its step in all four cases of running or not, root or child |
| `Kernels.Kernel.ReturnToParent` | student-distrib/syscall_impl.c:475-494 | resumes a parent at once or queues it with its execute frame, the status as result |
| `LineDiscipline.QueuedStep` | student-distrib/term.c:402-438 | every step keeps the key ring in shape: special keys only in front |
| `LineDiscipline.EraseExact` | student-distrib/term.c:413-427 | a backspace edits the line if and only if what it sees at the tail is treated as it should be: it is not ignored behind a pending backspace that leaves something to erase, does not take back a clear mark in front of a non-empty prefix, and does not misread the tail at slot 0 |
| `LineDiscipline.ClearExact` | student-distrib/term.c:346-353 | Ctrl-L clears the line if and only if it does not discard a newline |
| `LineDiscipline.ReadExact` | student-distrib/term.c:256-281 | a turn of the reader leaves the meaning alone if and only if it does not cut a line off at the caller's size |
| `LineDiscipline.StepExact` | student-distrib/term.c:256-438 | a step has the meaning of its keystroke, applied left to right, if and only if its guard holds |
| `LineDiscipline.RunExact` | student-distrib/term.c:256-438 | for every interleaving of keystrokes and reader turns, the prefix edited by the pending keys is the edit of all keystrokes throughout if and only if every guard holds |
| `LineDiscipline.ReturnedLines` | student-distrib/term.c:233-282 | from a fresh terminal the lines returned are the first completed lines of the edited keystrokes, and all of them once nothing is pending |
| `LineDiscipline.ClearUndone` | student-distrib/term.c:413-427 | a session in which a backspace after Ctrl-L revives the cleared line |
| `Terminals.Terminal.constructor` | student-distrib/term.c:130-143 | a fresh terminal has no keys |
| `Terminals.Terminal.TypeKey` | student-distrib/term.c:428-438 | a printing key is queued and echoed, or refused without echo when the ring is full |
| `Terminals.Terminal.EraseKey` | student-distrib/term.c:413-427 | the backspace branch refines its step and echoes exactly when it takes back a printing key |
| `Terminals.Terminal.ClearKeys` | student-distrib/term.c:346-353 | empties the ring and leaves one clear mark |
| `Terminals.Terminal.Gather` | student-distrib/term.c:256-276 | what the reader does with a key, as an edit of the line in the caller's buffer, with its own echo of a queued backspace |
| `Terminals.Terminal.Turn` | student-distrib/term.c:256-281 | one turn of the reader refines its step, with the line in the caller's buffer |
| `Terminals.Terminal.TermRead` | student-distrib/term.c:233-282 | the blocking read, interrupted by any keystrokes before any turn, refines the interleaved steps, returns the completed line, and echoes exactly what they echo |
| `Echoing.EchoExact` | student-distrib/term.c:256-438 | after a key or a turn of the reader the line on the screen is again the reader's line with the pending keys behind it if and only if the step's guard holds; a backspace that the reader takes out from under later keys erases the wrong letter unless all are equal |
| `Echoing.EchoRun` | student-distrib/term.c:256-438 | for every interleaving, the echo keeps up throughout if and only if every such guard holds |
| `Echoing.WhatYouSee` | student-distrib/term.c:256-438 | in a session within both kinds of guards, once nothing is pending the screen shows exactly the line the reader has collected, which is the edited line |
| `Echoing.WrongLetterErased` | student-distrib/term.c:260-266 | a session within the line discipline's guards in which the line is one letter and the screen shows another |
| `Screens.PutcExact` | student-distrib/term.c:83-126 | printing any character keeps the 80x25 memory a window onto an unbounded sheet wrapped at column 80 if and only if it is not a backspace at the home cell |
| `Screens.EraseUndoesPrint` | student-distrib/term.c:83-126 | a character and a backspace restore the cursor and blank the cell, across a wrap and across a scroll |
| `Screens.RunExact` | student-distrib/term.c:83-126 | a whole text prints without leaving the memory if and only if it never backs up past the window's first cell, and then the screen shows the sheet |
| `Screens.FirstSheet` | student-distrib/term.c:83-126 | every screen with its cursor in range is such a window |
| `Screens.ShiftUp` | student-distrib/term.c:110-125 | the two loops over video memory move every row up and blank the last, and touch nothing behind the screen |
| `Screens.TermPutc` | student-distrib/term.c:83-126 | the code on bytes of video memory refines the character step, and touches nothing behind the screen |
| `RtcFields.FreqMasks` | student-distrib/rtc.c:21-27 | on 32-bit words the mask-and-shift macros are the quotient and remainder forms |
| `RtcFields.TickedMasks` | student-distrib/rtc.c:30-36 | the same for the bit that says a tick happened |
| `RtcFields.TicksMasks` | student-distrib/rtc.c:39-44 | the same for the pending ticks |
| `RtcFields.CtrMasks` | student-distrib/rtc.c:83-87 | the same for the countdown |
| `RtcFields.FreqField` | student-distrib/rtc.c:21-27 | the frequency macros read and write their four bits and disturb no other field |
| `RtcFields.TickedField` | student-distrib/rtc.c:30-36 | the tick-bit macros read and write their bit and disturb no other field |
| `RtcFields.TicksField` | student-distrib/rtc.c:39-44 | the pending-tick macros read and write their sixteen bits and disturb no other field |
| `RtcFields.CtrField` | student-distrib/rtc.c:83-87 | the countdown macros read and write their sixteen bits and disturb no other field |
| `RtcDevice.InterruptPacked` | student-distrib/rtc.c:181-203 | an interrupt on the packed words is the interrupt on the fields |
| `RtcDevice.CollectPacked` | student-distrib/rtc.c:263-275 | a read on the packed words, which returns the pending ticks and clears them and the tick flag, is the read on the fields |
| `RtcDevice.ProgramPacked` | student-distrib/rtc.c:324-333 | setting a frequency on the packed words does it on the fields, the exponent kept modulo 16 |
| `RtcDevice.Periods` | student-distrib/rtc.c:88-92 | 2^s with s up to 10 divides the hardware rate exactly; any larger exponent kept in four bits ticks at every interrupt |
| `RtcDevice.Conservation` | student-distrib/rtc.c:181-278 | over every interleaving of interrupts and reads since a frequency was set, ticks collected plus pending plus lost are exactly interrupts divided by the period; none is lost if and only if fewer than 65536 ticks fall due in every stretch of the schedule without a read; the countdown is the period minus the remainder; and the tick flag that lets a read return is set if and only if a tick has fallen due since the last read |
| `RtcDevice.TickedExact` | student-distrib/rtc.c:251-278 | from a clear tick flag, after any interrupts and reads the flag is set if and only if a tick has fallen due since the last read, so that a read waits exactly when none has |
| `RtcDevice.OthersKept` | student-distrib/rtc.c:39-61 | interrupts and reads leave alone the flag bits of the file layer and the spare bits packed beside them |
| `RtcDevice.LossExact` | student-distrib/rtc.c:39-61 | the 16-bit pending field wraps exactly when the schedule leaves 65536 due ticks unread, and until then holds the ticks due since the last read |
| `RtcDevice.SleeperLoses` | student-distrib/rtc.c:53-61 | a reader that sleeps through 65536 periods loses ticks, at every frequency |
| `RtcDevice.Exponent` | student-distrib/rtc.c:312-326 | a request is accepted if and only if it is a power of two, 0 and all 32 bits included, and its exponent is found |
| `RtcChains.Descriptors.GetUnusedFd` | student-distrib/proc.h:187-206 | the first free descriptor, or -1 exactly when all eight are taken |
| `RtcChains.Descriptors.RtcOpen` | student-distrib/rtc.c:346-380 | takes the first free descriptor and fails exactly when there is none; puts the new device at the head of the chain, at 2 Hz, and changes no other descriptor |
| `RtcChains.Descriptors.Unlink` | student-distrib/rtc.c:400-412 | the pointer walk removes its own node and keeps the order of the rest |
| `RtcChains.Descriptors.RtcClose` | student-distrib/rtc.c:390-418 | the chain stays an acyclic list of exactly the open devices, without the closed one; the closed descriptor's flags are zero and no other descriptor changes |
| `RtcChains.Descriptors.Release` | student-distrib/proc.h:211-220 | zeroes the flags word, position kept, of a descriptor outside the chain |
| `RtcChains.Descriptors.CloseFiles` | student-distrib/syscall_impl.c:441-447 | halting frees every descriptor but the terminal's and unlinks every device of the process, so that no chain node lies in a PCB that may be zeroed; no other process's descriptor changes |
| `RtcChains.Descriptors.ClearFiles` | student-distrib/syscall_impl.c:315 | zeroing a dead PCB and opening its terminal descriptors leaves the chain intact |
| `RtcChains.Descriptors.HandleInterrupt` | student-distrib/rtc.c:181-203 | one hardware interrupt counts down every open device once and no other |
| `RtcChains.Descriptors.RtcRead` | student-distrib/rtc.c:251-278 | returns the pending ticks, clears them and takes the tick flag down, so that the next read waits again |
| `RtcChains.Descriptors.RtcWrite` | student-distrib/rtc.c:291-336 | answers 4 and programs the device exactly for a power of two, otherwise answers -1 and changes nothing |
| `RtcChains.WithoutAt` | student-distrib/rtc.c:400-412 | taking a device out of the chain is taking out its one position |
| `FileSystem.BlockRun` | student-distrib/file_sys.c:224-269 | bytes next to each other inside a block are next to each other in the file |
| `FileSystem.WellFormedReadable` | student-distrib/file_sys.c:39-45 | every inode of a well-formed image meets what a read asks of it, up to the index fetched past the last |
| `FileSystem.ReadRound` | student-distrib/file_sys.c:252-262 | a turn of the loop extends the part of the file already in the buffer up to the end of its block |
| `FileSystem.Advance` | student-distrib/file_sys.c:263-266 | the next index is in the image even when it is not used, and aims at the next byte when there is one |
| `FileSystem.ReadData` | student-distrib/file_sys.c:224-269 | for every inode the source accepts, the one just past the last included, the block-indexed read returns exactly the requested part of the flat content and writes nothing else; it fails exactly for an inode above that or an offset past the length |
| `FileSystem.OneInodeTooMany` | student-distrib/file_sys.c:235-243 | an inode out of range is refused if and only if it is not the one just past the last, or the offset exceeds the first word of the first data block |
| `FileSystem.NoInodeRead` | student-distrib/file_sys.c:235-243 | an image without inodes of which inode 0 is accepted and has five bytes to read |
| `FileSystem.OpenFile.constructor` | student-distrib/file_sys.c:96-124 | a file is opened at its start |
| `FileSystem.OpenFile.FileRead` | student-distrib/file_sys.c:57-73 | a read never fails, returns the next part of the content, advances by it, and never passes the end |
| `FileSystem.ReadsCompose` | student-distrib/file_sys.c:57-73 | the results of any sequence of reads put together are a prefix of the rest of the file, and all of it once a positive read returns nothing |
| `Mkfs.EncodedWellFormed` | student-distrib/file_sys.h:32-86 | an image written from the layout alone, counts, lengths and block numbers as little-endian words, is well-formed, with one inode for each file |
| `Mkfs.RoundTrip` | student-distrib/file_sys.c:224-269 | reading such an image gives back every file, byte for byte |
| `FileSystem.LoadFile` | student-distrib/file_sys.c:388-417 | the loader terminates with the whole file in place and nothing else changed, and accepts exactly the entry points from the load address up to and including the first address past the user page |
| `Paging.IndexMacros` | student-distrib/paging.h:14-37 | the index and base macros are quotients and remainders by the page sizes |
| `Paging.WindowHit` | student-distrib/paging.c:134-158 | a mapped window translates virt + k to phys + k, writable, for all of its 64 KB and nothing else under its table |
| `Paging.WalkIsMap` | student-distrib/paging.c:75-158 | the two-level walk over the tables the kernel builds is the memory map, for every address and process |
| `Paging.FakeRemapped` | student-distrib/paging.c:134-158 | mapping a screen window at its fake address rewrites the tables as if built that way |
| `Paging.UserRemapped` | student-distrib/paging.c:134-158 | mapping the user video window rewrites the tables as if built that way |
| `Paging.AlwaysBuilt` | student-distrib/paging.c:134-281 | after any sequence of video remappings the tables are some configuration's tables |
| `Paging.UserIsolation` | student-distrib/paging.c:342-361 | after any sequence of video remappings, every user-accessible address of a process is in its own page or in screen memory, never in the kernel's or another process's page, and its program page is never remapped |
| `Paging.KernelStays` | student-distrib/paging.c:75-86 | after any sequence of video remappings the kernel finds its own page and the video memory at their addresses, writable, under every directory, and user code finds neither |
| `Paging.BuffersApart` | student-distrib/proc.h:251-254 | byte k of one screen buffer and byte j of another are the same physical byte if and only if the buffers and the places are the same |
| `Paging.BuffersOutside` | student-distrib/proc.h:251-254 | no byte of a screen buffer lies in the kernel's page or in the page of a process |
| `Privacy.ReachExact` | student-distrib/paging.c:134-158 | over all addresses, a process reaches no screen but a given one if and only if its two windows are closed or lead there |
| `Privacy.OwnWindows` | student-distrib/paging.c:193-203 | in any consistent state a process is confined to its own screen if its terminal is behind and its user window is closed or its own, or if it asked for the user window and its fake one is closed |
| `Privacy.PidChangesTerminal` | student-distrib/syscall_impl.c:310-319 | in every state, if the newest process of a larger background group exits and the foreground's newest executes a program that gets its pid, that program reaches the background terminal's screen |
| `Privacy.OtherScreenReached` | student-distrib/syscall_impl.c:310-319 | six guarded steps from boot lead there, and a store of any byte by that program shows on the other terminal's screen and not on its own |
| `PrivateSessions.TidyIsPrivate` | student-distrib/paging.c:193-203 | a process without an inherited window, in front or behind, with or without vidmap, is confined to its own screen |
| `PrivateSessions.StepTidy` | student-distrib/syscall_impl.c:310-319 | a guarded call, or any store, leaves no process with an inherited window if and only if the pid it hands out has none that leads elsewhere |
| `PrivateSessions.PrivateSession` | student-distrib/term.c:478-523 | from boot on, in every session whose kernel calls are guarded and hand out such pids, every process is at every time confined to its own screen, and the four screens are independent whatever user code stores |
| `PageTables.Memory.MapVideoMem` | student-distrib/paging.c:134-158 | the loop over the sixteen entries refines the mapping step |
| `PageTables.Memory.InstallPages` | student-distrib/paging.c:342-361 | initialisation leaves exactly the tables of the initial configuration |
| `Multiplex.BehindIsWalk` | student-distrib/paging.c:134-158 | which buffer a window shows, and whether it may be written, is what the page walk finds there, byte for byte |
| `Multiplex.WindowsApart` | student-distrib/paging.c:134-158 | two mapped addresses inside windows are the same physical byte if and only if their windows show the same buffer at the same place |
| `VideoMemory.StoreInMemory` | student-distrib/paging.c:134-158 | when the buffers lie in physical memory, a store through a window changes the one byte the page walk finds, and memory then holds exactly the state after the step |
| `VideoMemory.CopyInMemory` | student-distrib/vga.c:51-71 | copying a whole screen memory, to save or to restore it, overwrites its destination in physical memory and no other buffer |
| `VideoMemory.ClearIsBlank` | student-distrib/vga.c:34-49 | a cleared video memory is a screen of blank cells, whatever it held, and unchanged behind the screen |
| `Multiplex.ChainRemapped` | student-distrib/paging.c:193-203 | on the page tables, the mapping calls for a chain of processes do what the loop does to the configuration |
| `MultiplexProofs.RemapEffect` | student-distrib/paging.c:193-203 | remapping a chain of processes changes the directories of its members and the tables of its terminal only |
| `MultiplexProofs.VidmapOpens` | student-distrib/syscall_impl.c:206-224 | vidmap marks the caller and leaves its user window on its own terminal's screen |
| `MultiplexProofs.VidmapWalk` | student-distrib/syscall_impl.c:206-224 | after vidmap the page walk takes byte k of the user window to byte k of video memory, for user code to write |
| `MultiplexProofs.LeaveForeground` | student-distrib/paging.c:168-220 | leaving the foreground saves the screen into the terminal's own buffer and points the whole group there |
| `MultiplexProofs.EnterForeground` | student-distrib/paging.c:230-281 | coming to the foreground restores the buffer and points the whole group at the real memory |
| `MultiplexProofs.WriteRefines` | student-distrib/term.c:83-126 | a write by the kernel, for a process of the terminal or on the foreground under any directory such as the keyboard's echo, and a store by user code through a window that leads to its own screen, lands on that terminal's screen and on no other |
| `MultiplexProofs.BeginKeeps` | student-distrib/term.c:173-220 | a child of the foreground terminal's newest process, or a root on an empty foreground terminal, keeps the terminals consistent |
| `MultiplexProofs.ExitKeeps` | student-distrib/syscall_impl.c:452-466 | an exit of a terminal's newest process, in the foreground if it is the last, keeps the terminals consistent |
| `MultiplexRuns.SwitchRefines` | student-distrib/term.c:478-523 | a guarded switch does not fault and keeps the screen of every terminal with a process; a shell spawned on an empty terminal gets a blank one, and without a shell the old picture stays |
| `MultiplexRuns.StepRefines` | student-distrib/term.c:478-523 | every guarded step, stores by user code included, does to the four terminals what it would do to four independent screens |
| `MultiplexRuns.StepExact` | student-distrib/syscall_impl.c:206-224 | no step faults; a call leads to a consistent state, whatever groups one looks for, if and only if vidmap, execute and the exit of a last shell come from the foreground terminal, no root is spawned on top of other processes, and no program fails to load after its terminal was opened; and a step does to the four screens what it should, a store by user code for every place and byte, if and only if it is guarded, which for a store means that its window leads to its own terminal's screen |
| `MultiplexRuns.StrayStore` | student-distrib/paging.c:193-203 | a store by user code through a window that leads elsewhere is missing from its own screen |
| `MultiplexRuns.VidmapBehind` | student-distrib/syscall_impl.c:213-216 | vidmap from a background terminal maps the wrong table, whatever the groups |
| `MultiplexRuns.ExecBehind` | student-distrib/term.c:192 | execute from a background terminal is booked on the wrong terminal, whatever the groups |
| `MultiplexRuns.SpawnOnTop` | student-distrib/term.c:182-192 | a root spawned on a terminal that has processes cuts them off |
| `MultiplexRuns.FailedBreaks` | student-distrib/syscall_impl.c:411-422 | a program that does not load leaves its terminal booked on a dead pid |
| `MultiplexRuns.SessionRefines` | student-distrib/term.c:478-523 | over every guarded session one video memory and the fake buffers refine four independent screens |
| `MultiplexRuns.FreshIsGood` | student-distrib/term.c:147-168 | the state before the first shell is consistent |
| `MultiplexRuns.BootShell` | student-distrib/kernel.c:254-258 | the boot shell takes the foreground terminal, with the boot messages still on its screen |
| `MultiplexRuns.BootRefines` | student-distrib/kernel.c:254-258 | from boot on, every guarded session, stores by user code included, shows four independent screens |
| `VideoWindows.WindowStays` | student-distrib/paging.c:168-281 | every guarded step but its exit leaves a process on its terminal with its window on that terminal's screen, terminal switches included |
| `VideoWindows.WindowLasts` | student-distrib/syscall_impl.c:206-224 | in every guarded session, from its vidmap until its exit, a process has a window onto its own terminal's screen, in the foreground and behind |
| `TermSwitch.Terminals.GetTermCtx` | student-distrib/proc.h:259-270 | the parent walk finds the terminal of the root |
| `TermSwitch.Terminals.RemapUpwards` | student-distrib/paging.c:193-203 | the loop up the parent chain remaps every process of the chain |
| `TermSwitch.Terminals.SwitchToFake` | student-distrib/paging.c:168-220 | the code refines leaving the foreground |
| `TermSwitch.Terminals.SwitchFromFake` | student-distrib/paging.c:230-281 | the code refines coming to the foreground |
| `TermSwitch.Terminals.StartRoot` | student-distrib/term.c:173-192 | the terminal part of starting a root, with what a failed load leaves behind |
| `TermSwitch.Terminals.SwitchTerminals` | student-distrib/term.c:478-523 | the code refines the switch step |
| `TermSwitch.Terminals.ClearScreen` | student-distrib/vga.c:37-49 | the loop blanks the visible cells of whatever buffer the screen pointer reaches, and nothing else |
| `Numbers.RoundTrip` | student-distrib/lib.c:236-269 | for every radix from 2 to 36, parsing the printed number gives it back, and only 0 starts with a zero |
| `Numbers.DigitValue` | student-distrib/lib.c:239 | the digit written for a value is the one in the lookup table, and reads back as the value |
| `Numbers.WriteDigits` | student-distrib/lib.c:257-265 | the digit loop leaves exactly the digits of the value, least significant first |
| `Numbers.StrLen` | student-distrib/lib.c:305-313 | the number of characters before the null |
| `Numbers.StrRev` | student-distrib/lib.c:278-294 | the swap loop reverses the text in place and touches nothing else |
| `Numbers.Itoa` | student-distrib/lib.c:236-269 | the buffer ends up holding the printed number, whatever the value and radix, if it has room for it |
| `Numbers.WordLength` | student-distrib/lib.c:79-107 | a 32-bit value has at most 32 digits in any radix, so the buffers of printf suffice, and at most 8 in hexadecimal |
| `Numbers.PrintHex` | student-distrib/lib.c:79-98 | the alternate hexadecimal form is always exactly eight digits of the same value |
| `Coupling.LeafIsNewest` | student-distrib/syscall_impl.c:452-466 | where scheduler and terminals agree on bitmap and parents, a live process has no live child if and only if it is the newest of its terminal |
| `Coupling.CtrlCKillsLeaf` | student-distrib/term.c:354-361 | the process that Ctrl-C kills is always a leaf, so the kill meets that condition of the halt guard |
| `Coupling.RescueFindsRoom` | student-distrib/sched.c:201-205 | a rescue shell always finds its terminal empty |
| `Coupling.ExecCoupled` | student-distrib/syscall_impl.c:259-426 | execute, loaded or not, keeps scheduler and terminals in agreement, and the running process is always the newest of its terminal |
| `Coupling.SpawnCoupled` | student-distrib/syscall_impl.c:259-426 | starting a root keeps them in agreement |
| `Coupling.HaltCoupled` | student-distrib/syscall_impl.c:428-500 | a halt that the scheduler allows is an exit that the terminals allow, and keeps them in agreement |
| `Coupling.SwitchCoupled` | student-distrib/sched.c:151-248 | a switch keeps them in agreement |
| `Coupling.DyingCoupled` | student-distrib/syscall_impl.c:458-473 | a root that halts itself is an exit, followed by a spawn exactly if it was the last process |

## Left out

- FileSystem.ReadData: asks that an inode within the bounds check is good, the data block taken for one included; with indices out of range the source reads outside the image.
- FileSystem.LoadFile: assumes the file fits behind the load address in the user page, which the source does not check.
- Screens.TermPutc: excludes the backspace at the home cell, which writes in front of video memory; `PutcExact` has it as a case.
- RtcChains.Descriptors.RtcRead: starts when a tick has happened; waiting for one is not a step of the model, and a caller's buffer shorter than four bytes is left out.
- RtcChains.Descriptors.GetUnusedFd: stops at the eighth descriptor, while the source's scan reads on behind the array when all are taken; the mark on the descriptor is set by the caller.
- RtcChains.Descriptors.RtcWrite: leaves out the checks for a bad descriptor, a null buffer and a length other than four, which all answer -1.
- Terminals.Terminal.TermRead: asks for room for at least one byte, since the source stores a first byte whatever the size; its waiting turns are the turns with nothing pending; it ends, incomplete, when the modelled arrivals do.
- TermSwitch.Terminals.SwitchTerminals: takes the four terminal numbers only, as its one caller passes them (`student-distrib/term.c:368-374`); the range check would also let 4 through. Cursor positions are not part of the saved screens.
- TermSwitch.Terminals.RemapUpwards: works on the configuration of the page tables; `Multiplex.ChainRemapped` carries it over to the tables.
- PageTables.Memory.InstallPages: takes the user video tables as cleared by the loader, since the source does not clear them.
- The fields of a saved register frame: a context is one opaque value with the result register.
- Interrupt entry and exit, the TSS, the TLB and cr3, port input and output, device setup.
- Modifier keys and scancodes; the key tables have no carriage return, so the echoed line ends at newlines only.
- Program output between echoed keys: `Echoing` follows the echo alone, `Screens` any characters.
- Directory lookup, command parsing and argument copying: a program is found and loads, or not.
- Exception dispatch, which only halts the running process.
- `active_to_expired` and the pokes of `queue.h`: unused, or one-line updates.
- The user programs, the Linux emulation layer and the test code.
