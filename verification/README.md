# A verified model of the teaching kernel

The repository is a 32-bit x86 kernel with three terminals on one screen, six process slots, a
read-only file system, a virtual real-time clock per terminal, and a few user programs. This
project models the parts of it that hold state, branch and calculate, and proves what they are
for. Everything is stated over all inputs, all images or all runs.

The centre is a refinement. `Kernel.dfy` is the kernel as the C code has it: one class with
`pidarray`, the process control blocks, `terminal_data`, the TSS word, the page tables (an object
with arrays), the video page and three back buffers (arrays), and one method per C routine.
`Machine.dfy` is what its users are promised: three terminals, each with a process stack, a
screen, a keyboard line and a clock of its own, and a few shared words. `KernelState.dfy` gives
the invariant and the terminals that the variables stand for. Each system call, key, clock
interrupt, exception and scheduler tick is proved to keep the invariant, to be exactly one step
of the three terminals, and to return or resume what that step says (`Kernel.Kernel.Dispatch`), but
for the one tick that finds no free pid; so every run of the kernel is a run of three separate
terminals up to such a tick (`Kernel.Kernel.Run`).

Over that machine `Runs.dfy`, `Liveness.dfy`, `Descriptors.dfy` and `Histories.dfy` prove independence, the
return of `execute`, bounded liveness, and what descriptors, clocks and keyboard lines are after any
run; `Typing.dfy` follows the keys from the scan codes to the line, `Echo.dfy` and `Output.dfy` say what
the screens show, `Commands.dfy` that a command line's arguments reach the program, `ScreenPage.dfy`
that an open screen page stays open, and `KernelStacks.dfy` that no two processes share a kernel
stack.

The other parts stand on their own: the file system against slices of the concatenated blocks
(`FileSystem.dfy`), page walks (`Paging.dfy`), cursor arithmetic (`Screen.dfy`) and what a text looks like
on the screen (`Rows.dfy`), the keyboard line
(`LineBuffer.dfy`), the clock dividers (`VirtualRtc.dfy`), the sliding-window line search
(`Grep.dfy`), the linked list of blinking characters in its pool (`BlinkPool.dfy`) and its timing
(`Blink.dfy`), and number printing (`Printf.dfy`).

Modelling decisions:

- Every system call and interrupt handler is one atomic step: interrupt 0x80 is an interrupt gate
  (student-distrib/init_idt.c:90) and the handlers clear the interrupt flag. A `read` that spins
  is a step that is not enabled yet.
- A saved stack and frame pointer is an opaque context. What the processor does next is a result
  of the step: return a value, enter a program, return from a parent's `execute`, or resume a
  terminal.
- Code that updates in place is a class or a method on arrays. Entries of `terminal_data`, process
  control blocks and descriptors are values kept in sequence-typed fields that methods reassign.
- Bytes are a bounded type, C division and remainder are written out, 32-bit words are read from
  the image byte by byte, and the clock divider is C's quotient, which truncates toward zero.
- A program is an arbitrary source of calls, exceptions and stores through its screen page.

Where the code falls short of its intent the model follows the code, and a row below gives the
exact condition: up to 79 characters can always be erased again and 81 cannot; a key typed between
Enter and the read takes the newline's place; a failed `open` can leave a descriptor open; a
failed `execute` leaves the caller running as a freed process exactly when a block is missing; the
first start of a terminal needs a free pid; the line search agrees with lines exactly when they
fit the window; a blinking character at location 0 breaks the list; and a word of frequency that is
the most negative integer passes the power-of-two test and makes the divider zero. `Shortfalls.dfy` and
`BrokenImage.dfy` exhibit inputs on which the process table, `execute` and `open` fall short.

## Model

| member | source | states |
|---|---|---|
| Kernel.Kernel.constructor | student-distrib/terminal_driver.c:154-165 | after initialisation no process runs, every entry is blank, and only video and kernel memory are mapped |
| Kernel.Kernel.Entry | student-distrib/kernel.c:172-180 | the boot message appears on the first terminal's screen and then the shell runs there, with the invariant established |
| Kernel.Kernel.Boot | student-distrib/kernel.c:180-180 | from any cursor and screen, the first `execute` of the shell establishes the whole invariant with exactly pid 0 on the first terminal and leaves its screen and every clock as they were |
| Kernel.Kernel.Run | student-distrib/scheduling.c:39-115 | for any events the kernel can meet: the invariant is kept, and the state is the one that three private terminals reach by the same events, exactly if no tick first starts a terminal with all six pids taken; otherwise the run stops after the first such tick |
| Kernel.Kernel.Dispatch | student-distrib/init_idt.c:89-94 | each event is one step of the three terminals, with that step's outcome; the invariant holds after it exactly if it is not a first start without a free pid |
| Kernel.Kernel.Serve | student-distrib/syscalls.c:332-460 | each call on descriptors or arguments is the running terminal's private step, with its reply |
| Kernel.Kernel.Putc | student-distrib/lib.c:289-333 | exactly the running terminal's own page and cursor change, as one character on that screen |
| Kernel.Kernel.Puts | student-distrib/lib.c:276-283 | a string appears character by character on the running terminal's own screen |
| Kernel.Kernel.ClearResetCursor | student-distrib/lib.c:85-89 | the running terminal's own screen is cleared and its cursor is home |
| Kernel.Kernel.AddCharToTbuff | student-distrib/terminal_driver.c:24-50 | the visible terminal's buffer, index and flag change as one key press on its edited line, and the status says whether the key is echoed |
| Kernel.Kernel.TerminalWrite | student-distrib/terminal_driver.c:110-125 | the standard input refuses; otherwise every byte but NULs goes to the screen and the count includes them |
| Kernel.Kernel.TerminalRead | student-distrib/terminal_driver.c:58-102 | the reader gets the newline-terminated or cut prefix of the buffer; the read bytes become spaces and the line starts anew |
| Kernel.Kernel.RtcWrite | student-distrib/rtc.c:108-130 | only four bytes are taken, and only a frequency that the specification of the divider accepts |
| Kernel.Kernel.Write | student-distrib/syscalls.c:355-368 | `write` is one private step of the running terminal |
| Kernel.Kernel.Read | student-distrib/syscalls.c:332-345 | `read` is one private step, and the caller's buffer starts with the bytes of the reply |
| Kernel.Kernel.FileRead | student-distrib/fs.c:161-168 | the buffer gets the slice of the file at the cursor, and the cursor moves to its end |
| Kernel.Kernel.DirectoryRead | student-distrib/fs.c:241-264 | the next name is copied and the cursor moves on, or 0 is returned at the end |
| Kernel.Kernel.AllocFd | student-distrib/syscalls.c:501-510 | the lowest closed descriptor |
| Kernel.Kernel.Refuse | student-distrib/fs.c:201-212 | exactly the message's text appears on the running terminal's screen, with the block message's missing second argument taken from the stack |
| Kernel.Kernel.SayNumber | student-distrib/lib.c:228-240 | a word is printed as a signed number after what is already on the screen |
| Kernel.Kernel.FileOpen | student-distrib/fs.c:187-219 | succeeds exactly if the inode exists and every full block of the file does; otherwise the running terminal shows which it refuses |
| Kernel.Kernel.OpenRegular | student-distrib/syscalls.c:388-401 | a regular file's descriptor gets its driver, and position 0 and the inode only if the driver accepts the file |
| Kernel.Kernel.OpenDescriptor | student-distrib/syscalls.c:386-404 | the descriptor's driver is set, and it is marked open even when the driver fails and has printed why |
| Kernel.Kernel.Open | student-distrib/syscalls.c:376-406 | `open` is one private step of the running terminal |
| Kernel.Kernel.Close | student-distrib/syscalls.c:414-426 | `close` is one private step; the two terminal descriptors refuse |
| Kernel.Kernel.GetArgs | student-distrib/syscalls.c:433-460 | the argument string with its NUL, or a failure that leaves in the buffer as much as there was room for; a buffer outside the program's page is refused before anything is copied |
| Kernel.Kernel.MapScreen | student-distrib/syscalls.c:468-487 | the flag is set by the pointer being non-null whether or not the pointer is then accepted; the page opened is the running terminal's display, and the four bytes stored are its address |
| Kernel.Kernel.Vidmap | student-distrib/syscalls.c:468-487 | `vidmap` is one step, which changes no terminal and stores the step's reply |
| Kernel.Kernel.UserStore | student-distrib/paging.c:165-197 | a store through the page-table entry lands on the running terminal's own screen, shown or not |
| Kernel.Kernel.RtcHandler | student-distrib/rtc.c:40-58 | each clock takes one tick of its own, and nothing else changes |
| Kernel.Kernel.TypeAndEcho | student-distrib/keyboard.c:102-105 | a key goes into the line and, if it is taken, onto the same terminal's screen |
| Kernel.Kernel.SpecialChars | student-distrib/keyboard.c:115-198 | reports exactly the special scan codes, and for those does all that the key means, the fall-through from Tab included |
| Kernel.Kernel.HandleKey | student-distrib/keyboard.c:82-111 | the key acts on the visible terminal only, and the running terminal is what it was |
| Kernel.Kernel.KeyboardHandler | student-distrib/keyboard.c:82-111 | a scan code is one step of the three terminals |
| Kernel.Kernel.GetPid | student-distrib/syscalls.c:98-107 | the lowest pid in no stack, now marked used, or -1 |
| Kernel.Kernel.PcbInit | student-distrib/syscalls.c:35-69 | all descriptors closed but the two of the terminal, the caller as parent, the `vidmap` flag as it was |
| Kernel.Kernel.SetProcessPaging | student-distrib/paging.c:131-157 | only the tables change: they map the given pid's frame and, if its flag is set, the running terminal's display |
| Kernel.Kernel.LoadAndStart | student-distrib/syscalls.c:195-320 | on any image: unchanged, rolled back, or started with the saved kernel stack and context and the whole file loaded, and which of these; a started process has the last word of its own 8KB as its kernel stack |
| Kernel.Kernel.Execute | student-distrib/syscalls.c:195-320 | on a well-formed image `execute` is one step: it fails and changes nothing or it pushes a process |
| Kernel.Kernel.CloseAll | student-distrib/syscalls.c:142-148 | every descriptor is closed, and the terminal's clock is reset exactly if one of them was an open clock |
| Kernel.Kernel.EndLeaf | student-distrib/syscalls.c:127-156 | the leaf is popped, its pid freed and its clock closed; what is then current is its parent, found through the parent's own slot |
| Kernel.Kernel.KillCurrentProc | student-distrib/syscalls.c:127-185 | the parent goes on with its own kernel stack and pages, or a new shell starts; never anything else |
| Kernel.Kernel.Halt | student-distrib/syscalls.c:116-118 | `halt` is one step, with the status cut to 8 bits |
| Kernel.Kernel.Exception | student-distrib/exc_handlers.c:85-89 | the message appears on the running terminal and its leaf ends with code 256, in one step |
| Kernel.Kernel.ShowTarget | student-distrib/scheduling.c:51-61 | the two copies happen exactly when the requested terminal's turn has come |
| Kernel.Kernel.FirstTurn | student-distrib/scheduling.c:80-95 | a terminal's first turn clears its screen and starts its shell; if no pid is free it falls through into the process that was interrupted, with nothing but the cleared screen changed |
| Kernel.Kernel.InterruptTurn | student-distrib/scheduling.c:97-102 | a pending Ctrl-C is cleared and that terminal's leaf ends |
| Kernel.Kernel.Resume | student-distrib/scheduling.c:104-119 | any other turn restores the saved kernel stack and context and that leaf's pages |
| Kernel.Kernel.ScheduleProcess | student-distrib/scheduling.c:39-126 | a tick is one step; the invariant holds after it exactly if it is not the first start of a terminal with all six pids taken, and then the interrupted process goes on with its stack and pages while no process is current and the next terminal is active |
| KernelState.AbsOk | student-distrib/syscalls.h:42-61 | the invariant gives a well-formed machine with disjoint stacks and a running process |
| KernelState.BootTerminals | student-distrib/terminal_driver.c:154-165 | at boot every line is empty and waits for Enter, every clock fires twice a second, and no modifier and no Ctrl-C is pending |
| KernelStacks.OwnStacks | student-distrib/syscalls.c:281-282 | under the invariant the TSS word, every suspended terminal's saved word and every child's saved word are, as plain numbers, the tops of the slots of the current process, the terminal's leaf and the parent |
| KernelStacks.SlotsAreApart | student-distrib/syscalls.c:88-88 | the 8KB slots of two pids share no address, and lie in the kernel's 4MB |
| KernelStacks.OwnStackIsMapped | student-distrib/syscalls.c:281-282 | the current kernel stack is in memory that no other slot has, that the kernel sees at its own address and no program can reach |
| KernelProcesses.ParentChains | student-distrib/syscalls.c:57-59 | from each terminal's pid the parent links list exactly its own stack, leaf first, and then end |
| KernelProcesses.PidsInUse | student-distrib/syscalls.c:16-17 | a slot is marked used exactly if its pid is on one of the three disjoint stacks |
| KernelProcesses.FailedExecute | student-distrib/syscalls.c:273-278 | a failed `execute` changes nothing exactly unless the header passed, a pid was free and a block is missing; then the caller goes on as a freed process and the invariant is gone |
| KernelProcesses.ExecRefines | student-distrib/syscalls.c:252-289 | on a well-formed image the effect of `execute` is the machine's step |
| KernelProcesses.KillRefines | student-distrib/syscalls.c:127-185 | the end of a process pops the running terminal's stack, or replaces its last process, and touches no other terminal |
| KernelProcesses.ShellStarts | student-distrib/syscalls.c:153-157 | the shell that replaces a last process can always be found, loaded and given a pid |
| KernelInterrupts.ProgramSees | student-distrib/paging.c:131-197 | under the invariant a user program reaches exactly its own 4MB frame and, if open, its own terminal's current display page |
| KernelInterrupts.FrameIsDisplay | student-distrib/paging.c:171-174 | the screen page's entry names video memory if the running terminal is visible and its back buffer otherwise |
| KernelInterrupts.VidmapRefines | student-distrib/syscalls.c:468-487 | the effect of `vidmap` is the machine's step |
| ScreenPage.VidmapSets | student-distrib/syscalls.c:468-487 | `vidmap` sets the flag to whether its pointer is non-null and closes nothing; a pointer outside the program's page gives -1 |
| ScreenPage.VidmapOpens | student-distrib/syscalls.c:482-485 | a pointer into the program's page opens the page and stores 0x8800000 |
| ScreenPage.FlagDecides | student-distrib/paging.c:131-157 | whenever another process gets the processor the page is open exactly if the flag in its slot is set, whoever set it |
| ScreenPage.StoresGoOn | student-distrib/paging.c:149-157 | in every run after its `vidmap` a program can store to its screen whenever it runs, until it calls `vidmap` again |
| KernelInterrupts.StoreRefines | student-distrib/lib.c:22-28 | a store into the display page changes the running terminal's own screen and nothing else |
| KernelInterrupts.ClockRefines | student-distrib/rtc.c:45-55 | the handler's loop is one tick of each of the three clocks |
| KernelInterrupts.KeyRefines | student-distrib/keyboard.c:82-198 | what a scan code does to the variables is the machine's step |
| KernelTicks.TickRefines | student-distrib/scheduling.c:39-126 | what a tick does to the variables is the machine's step, and when it is not: which variables have moved on and which still belong to the interrupted process |
| KernelRefinement.ShownKeepsScreens | student-distrib/scheduling.c:51-57 | the two copies of a visible switch preserve every terminal's own screen |
| KernelRefinement.StartedStructure | student-distrib/syscalls.c:252-289 | starting a process keeps the stacks, the parent links and every saved kernel stack consistent, and the TSS word is 8MB less 8KB a slot and 4 |
| KernelRefinement.FreedStructure | student-distrib/syscalls.c:127-156 | ending a leaf keeps them consistent |
| KernelRefinement.SwitchStructure | student-distrib/scheduling.c:63-91 | a terminal switch keeps them consistent |
| KernelRefinement.WriteRefines | student-distrib/syscalls.c:355-368 | what `write` does to the variables is the private step |
| KernelRefinement.ReadRefines | student-distrib/syscalls.c:332-345 | what `read` does to the variables is the private step |
| KernelRefinement.OpenRefines | student-distrib/syscalls.c:376-406 | on a well-formed image what `open` does to the variables is the private step |
| KernelRefinement.CloseRefines | student-distrib/syscalls.c:414-426 | what `close` does to the variables is the private step |
| KernelRefinement.FailedOpenLeaks | student-distrib/syscalls.c:401-403 | a failed `open` changes anything exactly when a closed descriptor was there and the name is a regular file with a bad inode or a missing full block |
| KernelRefinement.WellFormedOpens | student-distrib/fs.c:206-212 | in a well-formed image no driver refuses a file |
| KernelRefinement.OpenableIsReadable | student-distrib/fs.c:206-212 | `file_open` accepts exactly the files whose full blocks can all be read |
| Terminals.ServeOk | student-distrib/terminal_driver.c:144-146 | calls keep descriptors 0 and 1 open on the terminal and every other one closed or readable |
| Terminals.ServeProcs | student-distrib/syscalls.c:332-460 | calls change nothing about the processes but the leaf's descriptors |
| Terminals.NonZeroParts | student-distrib/terminal_driver.c:117-122 | a write skips NULs wherever they are and goes on after them |
| Machine.KeyMeans | student-distrib/keyboard.c:82-198 | a key does at most: modifiers, each as pressed or released, one event at the visible terminal, and a request to show one of the three terminals |
| Typing.OneCode | student-distrib/keyboard.c:117-150 | which scan codes press, release and toggle which modifier |
| Typing.ModifiersAreHistory | student-distrib/keyboard.c:117-150 | after any run Shift, Ctrl and Alt are down exactly if pressed and not released since, or down before and not released; Caps Lock is on by the parity of its presses; no other event changes them |
| Typing.OtherKeys | student-distrib/keyboard.c:151-196 | what Enter, Backspace, Tab, Ctrl-C, Ctrl-L and Alt with a function key mean, and that nothing else is typed with Ctrl down or by a release |
| Typing.Layout | student-distrib/keyboard.c:28-44 | the layout, by rows of the keyboard: letters are capitals exactly if one of Shift and Caps Lock is on, the other keys follow Shift alone |
| Typing.Word | student-distrib/keyboard.c:101-105 | printing keys type their characters, one each and in order |
| Typing.KeysGoToVisible | student-distrib/keyboard.c:93-107 | in every run a terminal that stays shown gets the presses of all scan codes, and one that is not shown gets none |
| Typing.CtrlCEndsProgram | student-distrib/keyboard.c:145-154 | Ctrl and C at a started terminal end the program there by the third tick, whatever else happens |
| Typing.AltFnShows | student-distrib/keyboard.c:179-193 | Alt and a function key show the terminal of that number by the third tick, if no other is asked for |
| MachineFacts.StepKeepsPids | student-distrib/syscalls.c:98-156 | every step keeps all pids in one place; something runs after it exactly if it is not a first start without a free pid |
| MachineFacts.StepStacks | student-distrib/syscalls.c:127-289 | the three stacks after any step, as a push, a pop or a replacement on at most one of them |
| MachineFacts.KilledOk | student-distrib/syscalls.c:150-158 | a kill leaves disjoint stacks and never an empty one |
| Stacks.PushKeeps | student-distrib/syscalls.c:98-107 | pushing a free pid keeps the stacks disjoint and adds exactly that pid |
| Stacks.PopKeeps | student-distrib/syscalls.c:150-151 | popping keeps them disjoint and frees exactly the leaf's pid |
| Stacks.AtMostSix | student-distrib/syscalls.c:16-17 | at most six processes |
| Stacks.RespawnCannotFail | student-distrib/syscalls.c:150-156 | when the last process of a terminal ends there is a pid for the new shell |
| Runs.TerminalsAreIndependent | student-distrib/lib.c:22-28 | in every run each terminal's processes, descriptors, screen, cursor, line and clock are those of a private terminal that saw only its own events |
| Runs.OthersUndisturbed | student-distrib/scheduling.c:39-126 | a terminal that is not running, shown or switched to sees clock ticks only |
| Runs.AtMostSixProcesses | student-distrib/syscalls.c:16-17 | in every run the stacks hold at most six processes, no pid twice |
| Runs.ProcessSurvives | student-distrib/syscalls.c:35-69 | while a process lives, through every interleaving, it keeps its pid, arguments and way back, and its ancestors keep everything |
| Runs.ExecuteReturns | student-distrib/syscalls.c:161-181 | when a started program at last ends, its parent resumes inside that very `execute` with the exit code and the stack of processes is as it was at the call, descriptors included |
| Runs.ExitCodeIs | student-distrib/syscalls.c:116-118 | `halt` hands over the low byte of its status; a program that is killed hands over 256, which no `halt` can |
| Commands.ArgumentsArrive | student-distrib/syscalls.c:433-460 | whatever has happened since it was started, a program that asks for its arguments gets the rest of its own command line with a NUL, or -1 if there is no room |
| Commands.LineArrives | student-distrib/syscalls.c:206-228 | executing spaces, a name, spaces and a rest starts the program of that name, and its `getargs` replies with that rest |
| Liveness.RoundRobin | student-distrib/scheduling.c:44-44 | the running terminal is the start terminal plus the number of ticks, modulo 3 |
| Liveness.ComesBack | student-distrib/scheduling.c:63-119 | a terminal from which a tick takes the processor gets it back with the third tick, at the very context it was interrupted at unless a Ctrl-C is pending |
| Liveness.RequestIsMet | student-distrib/scheduling.c:51-61 | a standing request to show a terminal is met when that terminal's turn comes, and stays met |
| Liveness.WithinThreeTicks | student-distrib/terminal_driver.c:175-180 | such a request is in force by the third tick |
| Liveness.InterruptIsServed | student-distrib/scheduling.c:97-102 | a Ctrl-C on a started terminal is served at its next turn, at the third tick at the latest |
| Liveness.InterruptKillsLeaf | student-distrib/scheduling.c:97-102 | the tick that serves it ends exactly the leaf of that terminal's stack and leaves the other two alone |
| Liveness.StartedNeverStuck | student-distrib/syscalls.c:150-158 | once every terminal has a shell, no events can leave the processor without a process |
| Descriptors.OpenGivesLowest | student-distrib/syscalls.c:384-405 | in a well-formed image `open` returns the lowest closed descriptor, between 2 and 7, at position 0 of the named file or of the directory or as a clock, or fails exactly for an unknown name, an unknown type or a full table |
| Descriptors.OpenedClock | student-distrib/rtc.c:65-70 | an opened clock fires twice in 1024 interrupts; no other `open` touches the clock |
| Descriptors.CloseFrees | student-distrib/syscalls.c:414-426 | `close` succeeds exactly on an open descriptor from 2 to 7, frees that one for the next `open` and touches no other |
| Descriptors.ClosedRefuses | student-distrib/syscalls.c:332-368 | no call can use a descriptor that is not open |
| Descriptors.EndFreesClock | student-distrib/syscalls.c:142-148 | the end of a process puts the clock it had open back to two ticks a second |
| Descriptors.ReadGets | student-distrib/fs.c:161-168 | a read gets as many bytes as there are up to the number asked for, and moves on by as many |
| Descriptors.DescriptorIsCursor | student-distrib/fs.c:161-168 | through any events, all that is read from an open file is, in order and whatever the chunks, the file from its cursor on; other descriptors and processes never disturb it |
| Descriptors.ReadsAfterOpen | student-distrib/fs.c:161-219 | from its `open` on, all that a process reads from a file's descriptor is a prefix of the file, up to the descriptor's position |
| Descriptors.ScanListsDirectory | student-distrib/fs.c:241-264 | repeated reads of a directory list its entries in order and then give 0 forever |
| FileSystem.ReadData | student-distrib/fs.c:88-127 | -1 exactly for a bad inode or a missing block within the capped range; otherwise the buffer starts with the specified slice, each byte of which is the byte at its numeric place in the image, and the rest is untouched |
| FileSystem.ReadLocates | student-distrib/fs.c:135-149 | what a read gets, byte by byte, from inode, block list and data blocks at their places in the image, and how much |
| FileSystem.ReadFails | student-distrib/fs.c:95-111 | a read fails exactly for an inode past the count or a byte whose listed block is past the count |
| FileSystem.ContentLocates | student-distrib/fs.c:135-149 | the flat file is as long as the inode says and made of the bytes at those places |
| FileSystem.ReadIsSliceOfContent | student-distrib/fs.c:88-127 | for a file with all its blocks the result is that slice of the concatenated blocks, at every offset and block straddle |
| FileSystem.CopyFromBlock | student-distrib/fs.c:107-124 | one turn of the loop copies up to the block's end and keeps the copied prefix right |
| FileSystem.ReadDentryByName | student-distrib/fs.c:35-55 | the first entry whose 32-byte field holds the name, terminated or not |
| FileSystem.LookupLies | student-distrib/fs.c:35-55 | a look-up gives the first directory entry of the image with that name, fields and type codes included, or there is none |
| FileSystem.ReadDentryByIndex | student-distrib/fs.c:64-76 | there is an entry exactly below the count; its name is the bytes of its field up to the first NUL or all 32, and its type and inode are the two words after them |
| FileSystem.NameMatches | student-distrib/fs.c:43-44 | the length and the bounded comparison together are string equality with the field |
| FileSystem.StrNLen | student-distrib/lib.c:408-413 | the length of the string, capped |
| FileSystem.StrLen | student-distrib/lib.c:397-402 | the length of the string before its NUL |
| FileSystem.StrNCmp | student-distrib/lib.c:581-595 | zero exactly if the two strings agree within the bound |
| FileSystem.StrNCpy | student-distrib/lib.c:618-629 | the string and then NULs up to the bound; nothing past it |
| FileSystem.DirRead | student-distrib/fs.c:241-264 | the name field with a final NUL if there is room, or 0 at the end |
| FileSystem.DirBytesAre | student-distrib/fs.c:248-262 | byte by byte: the name, then NULs, to at most 33 bytes |
| FileSystem.DirectoryRoundTrip | student-distrib/fs.c:35-76 | a listed name looks up its own entry exactly if no earlier entry has the same name, unterminated names included |
| Programs.ParseCommand | student-distrib/syscalls.c:206-228 | the line is spaces, the name, spaces, the arguments and what follows a newline, put together again; the name has no spaces and the arguments do not start with one |
| Programs.ReadsBack | student-distrib/syscalls.c:211-228 | however many spaces there are before and after the first word, it is the name and the rest of the line the arguments |
| Programs.CopyArgs | student-distrib/syscalls.c:446-457 | the whole string with its NUL is copied exactly if it is shorter than the room |
| Programs.CheckProgram | student-distrib/syscalls.c:233-249 | passes exactly a named file whose first four bytes, read over the stack's contents, are the ELF magic |
| Programs.LoadsCompletely | student-distrib/syscalls.c:273-278 | in a well-formed image a program that passes the header check loads completely |
| SmallImage.ShellImage | student-distrib/syscalls.c:233-249 | a well-formed image with a shell exists |
| BrokenImage.BadMissesBlock | student-distrib/syscalls.c:237-278 | on a concrete image with a missing block the shell runs, and a second program passes its header check and then cannot be loaded |
| BrokenImage.BadIsRefused | student-distrib/fs.c:206-212 | the driver refuses that program's file |
| Shortfalls.FirstStartFails | student-distrib/scheduling.c:80-95 | from any state with one process, five more shells are possible, and the next tick then finds no free pid for the second terminal and falls through |
| Shortfalls.FillTheTable | student-distrib/scheduling.c:80-95 | from boot on the small image such a run leaves no process current and the invariant gone |
| Shortfalls.LoseTheCaller | student-distrib/syscalls.c:273-278 | on the broken image the shell's failed `execute` leaves it running as a process whose slot is free |
| Shortfalls.LeakDescriptor | student-distrib/syscalls.c:401-403 | on the broken image the shell's failed `open` leaves descriptor 2 open on a regular file |
| Programs.ShellRuns | student-distrib/syscalls.c:270-272 | the shell always resolves, with its whole file loaded and an entry point that does not depend on the stack's contents |
| Programs.LoadedProgram | student-distrib/syscalls.c:237-278 | what is loaded is the file as it is in the image, with the magic in its first bytes and the entry point in bytes 24 to 27 |
| Paging.Mmu.constructor | student-distrib/paging.c:50-118 | the loops fill in every entry of both tables |
| Paging.Mmu.MapProcess | student-distrib/paging.c:131-147 | exactly the user page changes, to the pid's frame |
| Paging.Mmu.VidmapPaging | student-distrib/paging.c:165-197 | exactly the screen page changes: closed, or onto the given frame |
| Paging.InitialTranslation | student-distrib/paging.c:50-118 | after initialisation translation is the identity on the video page and the kernel's 4MB and a fault everywhere else, and always a fault from user mode |
| Paging.UserTranslation | student-distrib/paging.c:131-197 | from user mode the 4MB at 128MB go to the pid's frame, the screen page to its frame, and everything else faults |
| Paging.UserAddresses | student-distrib/paging.c:131-197 | in plain numbers: 128MB goes to 8MB and 4MB a slot, 136MB to the screen |
| Paging.ProgramWrites | student-distrib/paging.c:131-197 | a program may write to all that it reaches |
| Paging.KernelTranslation | student-distrib/paging.c:50-118 | the kernel's own pages stay the identity whichever process is mapped |
| Paging.ProcessesAreApart | student-distrib/paging.c:217-219 | two processes never reach the same byte of memory through their program pages, nor kernel or video memory |
| Display.PutIn | student-distrib/lib.c:289-333 | the array code with C division is one character of the screen specification, and a newline resets the column |
| Display.ScrollBuffer | student-distrib/lib.c:34-48 | every row moves up and the last one is blank |
| Display.ClearBuffer | student-distrib/lib.c:70-78 | every cell is blank and nothing past them changes |
| Screen.Put | student-distrib/lib.c:289-333 | the cursor keeps its range, which puts every written cell on the page, negative columns included; a newline goes to the start of the next row, or of the last |
| Rows.NewRow | student-distrib/lib.c:295-303 | a newline or return goes to column 0 of the next row and changes no cell; on the last row every row moves up, a blank one comes in and the hidden bytes stay |
| Rows.NewCell | student-distrib/lib.c:313-330 | any other character goes to the cursor's cell and the cursor to the next; in the very last cell it is lost and the screen rolls |
| Rows.BackOne | student-distrib/lib.c:302-311 | a backspace blanks the cell before and goes there, but for the jump from 79 columns left and the stop at the first cell |
| Rows.LinesStand | student-distrib/lib.c:289-333 | lines typed from the start of any row stand on consecutive rows from column 0, rolled up with everything else as the last row is passed; the content of every cell |
| Rows.WrittenLines | student-distrib/terminal_driver.c:110-125 | a program's write of such lines shows them all in that way and counts every byte |
| Rows.AllBlank | student-distrib/lib.c:70-89 | a clear blanks all 2000 cells and homes the cursor |
| Output.StoreShows | student-distrib/lib.c:22-28 | a store to the screen page changes one half of one cell of the running terminal's screen |
| Output.ExceptionSays | student-distrib/exc_handlers.c:85-89 | an exception's message is printed at the cursor of the terminal whose program it ends |
| Output.FirstStartClears | student-distrib/scheduling.c:85-86 | a terminal starts on a blank screen |
| Output.CtrlLClears | student-distrib/keyboard.c:159-162 | Ctrl and L blank the shown terminal's screen and keep its line |
| Output.OthersDrawNothing | student-distrib/lib.c:289-333 | no event but a write, an exception, a store, a key and a first start changes any screen |
| Echo.KeyFollows | student-distrib/keyboard.c:101-105 | a key that the line takes is echoed where the line ends, an erasure takes the last character away, and a key that is not taken shows nothing |
| Echo.ScreenShowsLine | student-distrib/keyboard.c:93-107 | in every run the screen shows the line as edited, from the place where it began and with the cursor behind it, until something is written or read there or it grows past 79 characters |
| Screen.Typed | student-distrib/lib.c:313-330 | plain characters that do not scroll appear one after another from the cursor on, and nothing else changes |
| Screen.Erased | student-distrib/lib.c:302-311 | where the cursor is after any number of erasures, in closed form |
| Screen.ErasedCells | student-distrib/lib.c:302-311 | which cells those erasures blank |
| Screen.TypeThenErase | student-distrib/lib.c:289-333 | typing characters that do not scroll and erasing as many returns to the cell exactly under a bound on the start cell and the number, known before typing |
| Screen.UpTo79 | student-distrib/lib.c:289-333 | up to 79 characters that do not scroll are always taken back and their cells left blank |
| Screen.EightyOneFails | student-distrib/lib.c:302-311 | 81 characters from the top left are not: the cursor ends a row too low |
| LineBuffer.TextIsEdited | student-distrib/terminal_driver.c:24-50 | for every key sequence the bytes below the index are the line as a stack of at most 127 characters |
| LineBuffer.EditedWord | student-distrib/terminal_driver.c:24-50 | the keys of a word type it |
| LineBuffer.EditedErase | student-distrib/terminal_driver.c:24-50 | a backspace takes back the last character, Enter nothing, and a full line takes no more |
| LineBuffer.ReadGivesLine | student-distrib/terminal_driver.c:66-102 | a read gives the edited line, its newline and the cut exactly if the newline is still in place or cut away; the line is then empty |
| LineBuffer.ReadAfterEnter | student-distrib/terminal_driver.c:58-102 | after any keys that end in Enter a read of n bytes gives the edited line with its newline, cut to n |
| LineBuffer.CutIs | student-distrib/terminal_driver.c:79-92 | a cut line has exactly n bytes, the last one a newline |
| LineBuffer.ReadBlanks | student-distrib/terminal_driver.c:70-93 | a read blanks the bytes up to the first newline within its reach and no others |
| LineBuffer.TypeAheadLosesLine | student-distrib/terminal_driver.c:44-46 | a key between Enter and the read takes the newline's place, and a large read may then get nothing |
| LineReader.CopyAll | student-distrib/terminal_driver.c:71-79 | the loop for large reads copies up to the newline, or clears the whole buffer and reports nothing |
| LineReader.CopySome | student-distrib/terminal_driver.c:81-94 | the loop for small reads copies up to the newline, or forces one into the last byte |
| VirtualRtc.TicksClosedForm | student-distrib/rtc.c:45-55 | after N interrupts the counter is (c+N) mod d and the terminal has fired (c+N)/d times |
| VirtualRtc.ResetIsTwoHertz | student-distrib/rtc.c:65-83 | a clock just opened or closed fires twice in 1024 interrupts |
| VirtualRtc.BitTest | student-distrib/rtc.c:116-116 | `n & (n - 1) == 0` holds exactly for powers of two |
| VirtualRtc.RateIsFrequency | student-distrib/rtc.c:108-130 | a word that is positive as a signed number is accepted exactly if it is a power of two up to 1024; the divider times it is then 1024 and the terminal fires that often in 1024 interrupts |
| VirtualRtc.RateKeepsValid | student-distrib/rtc.c:116-119 | the counter stays below the divider after an accepted write exactly if the word is not negative as a signed number |
| VirtualRtc.NegativeRate | student-distrib/rtc.c:115-118 | exactly one negative word is accepted, the most negative one, and the divider is then zero |
| Histories.StepKeepsClock | student-distrib/rtc.c:40-129 | an event keeps a terminal's counter below its divider exactly unless it writes that one word to an open clock |
| Histories.ClocksStayValid | student-distrib/rtc.c:40-129 | in every run in which no program writes that word, every clock's counter stays below its divider |
| Histories.RunClock | student-distrib/rtc.c:45-53 | between reconfigurations, through any calls, keys, pushes and pops, the counter is (c+N) mod d and the clock has fired (c+N)/d times; the flag is up exactly if it was or it fired, until it is read |
| Histories.ClockOverRuns | student-distrib/rtc.c:40-56 | the same in every run of the whole machine, with N the clock interrupts of the run, whatever the other terminals do |
| Histories.RunLine | student-distrib/terminal_driver.c:24-50 | through any events but reads of it, a terminal's line is what its keys alone make of it |
| Histories.ReadAfterEnterInRuns | student-distrib/terminal_driver.c:58-102 | in every run whose keys at a terminal end in Enter, a read there can proceed, replies with the edited line and its newline, cut, and starts a new line |
| Histories.KeyboardReadWaits | student-distrib/terminal_driver.c:66-68 | in every run a read of the keyboard can proceed exactly if Enter has been pressed since the last one |
| Histories.ClockReadWaits | student-distrib/rtc.c:91-98 | in every run a read of the clock can proceed exactly if its flag was up or enough interrupts have come |
| Keyboard.KeymapFacts | student-distrib/keyboard.c:30-49 | every row of the scan code table has 60 entries, each NUL or plain ASCII other than newline and backspace |
| Grep.DoOneFile | syscalls/ece391grep.c:10-66 | for every file without NULs, readable to the end or failing at some read or at its close: the return value, the message, and before it exactly the output of the searched pieces, or of the part searched when a read failed; when every line fits the window, exactly the matching lines, each once and in order |
| Grep.SearchFile | syscalls/ece391grep.c:21-61 | the window loop, however lines straddle reads; how many reads must succeed for it to finish, and how many suffice |
| Grep.CutLines | syscalls/ece391grep.c:28-58 | the inner loop searches every line the window completes and keeps the unfinished one |
| Grep.SearchLine | syscalls/ece391grep.c:42-53 | a line is printed once if the pattern occurs anywhere in it, and not otherwise |
| Grep.MatchesIs | syscalls/ece391grep.c:42-45 | a line matches exactly if the pattern, not empty, is somewhere in it |
| Grep.PrintedParts | syscalls/ece391grep.c:28-58 | the lines printed are those that match, in their order |
| Grep.RenderedParts | syscalls/ece391grep.c:46-50 | each is printed once, after the file's name and a colon, on a line of its own |
| Grep.ShiftLeft | syscalls/ece391support.c:14-17 | the overlapping copy moves the string to the start of its own buffer |
| Grep.StrNCmp | syscalls/ece391support.c:35-46 | zero exactly if the pattern is at that place of the line |
| Grep.StringAt | syscalls/ece391support.c:19-22 | what is written is the string up to its NUL |
| Grep.WindowIsLineByLine | syscalls/ece391grep.c:20-60 | when every line fits 1024 bytes, the pieces that match are the lines that match |
| Grep.ExactlyWhenLinesFit | syscalls/ece391grep.c:20-60 | the program agrees with the line-by-line search for all patterns exactly if every line fits |
| Grep.PiecesCover | syscalls/ece391grep.c:20-60 | whatever the line lengths, every byte but newlines is searched in exactly one piece, in order |
| Grep.PiecesFit | syscalls/ece391grep.c:20-60 | no piece is longer than 1024 bytes or has a newline in it |
| Grep.LinesAreTheText | syscalls/ece391grep.c:28-31 | the lines are the text cut at its newlines |
| BlinkPool.Blinker.constructor | fish/fish.c:23-28 | an empty list over a cleared pool |
| BlinkPool.Blinker.Malloc | fish/fish.c:160-170 | the first slot with location 0 |
| BlinkPool.Blinker.Add | fish/blink.S:105-184 | fails exactly for a bad location or a full list; otherwise prepends and shows the character, and the list stays a list exactly if the location is not 0 |
| BlinkPool.Blinker.Remove | fish/blink.S:187-236 | the first character at the location, and only that one, leaves the list and its slot becomes free |
| BlinkPool.Blinker.FindHelper | fish/blink.S:351-380 | the first character at a location, found or not after finitely many links |
| BlinkPool.Blinker.Find | fish/blink.S:302-349 | the contents of the first character at a location |
| BlinkPool.Blinker.Sync | fish/blink.S:240-299 | the target's timing becomes the source's, in place |
| BlinkPool.Blinker.Tick | fish/blink.S:49-98 | one traversal ticks every character on the list once, in order, and ends |
| BlinkPool.Blinker.Run | fish/blink.S:49-299 | every run without location 0 keeps an acyclic list of exactly the slots in use and shows what the abstract list shows |
| BlinkPool.FullPool | fish/fish.c:160-170 | no free slot exactly if the list has 2000 characters |
| BlinkPool.InsertedLinked | fish/blink.S:157-162 | insertion in front keeps the list |
| BlinkPool.UnlinkedLinked | fish/blink.S:203-222 | unlinking keeps the list without that one slot |
| BlinkPool.ZeroBreaks | fish/fish.c:160-170 | after adding at location 0 no list of slots fits the pool |
| BlinkPool.ZeroThenCycle | fish/fish.c:160-170 | the next character added after one at location 0 links to itself |
| Blink.BlinkTiming | fish/blink.S:62-87 | closed form for every pair of 16-bit lengths: on exactly if n mod (on+off) is below on, where a length outside 1 to 32768 counts as 1 |
| Blink.TickShows | fish/blink.S:59-90 | the cell of a character alone in its place follows its status through a tick of the whole list |
| Blink.CharacterBlinks | fish/blink.S:49-169 | through every run that does not touch it, the cell of an added character shows its on character in the first part of each period and its off character in the rest |
| Blink.BlinksAsAsked | fish/blink.S:49-169 | with lengths from 1 to 32768 the parts of the period are the lengths asked for |
| Blink.AddThenRemove | fish/blink.S:105-236 | an added character is the one found at its place, and removing it restores the list |
| Blink.RemoveTakesOne | fish/blink.S:187-236 | removing takes exactly one character away from its place, if there is one |
| Blink.SyncedInStep | fish/blink.S:240-299 | after a sync the target is on exactly when the source is, at every later tick; at once it shows its off character |
| Printf.Itoa | student-distrib/lib.c:341-371 | the buffer gets the numeral and a NUL, and nothing else changes |
| Printf.StrRev | student-distrib/lib.c:377-391 | the string is reversed in place and nothing else changes |
| Printf.NumeralReads | student-distrib/lib.c:341-371 | reading back what is printed gives the number, in every radix from 2 to 36 |
| Printf.DigitTable | student-distrib/lib.c:342-342 | the characters of the digits |
| Printf.NumeralDigits | student-distrib/lib.c:342-371 | every character is a digit below the radix, and only 0 starts with a zero |
| Printf.NumeralFits | student-distrib/lib.c:203-231 | a word has at most 32 digits in any radix and at most 8 in hexadecimal, which the buffers of `printf` have room for |
| Printf.PrintAlignedHex | student-distrib/lib.c:203-214 | what the split buffer prints is the numeral with leading zeros |
| Printf.EightHexDigits | student-distrib/lib.c:203-214 | that is exactly eight hexadecimal digits which denote the word |
| Printf.PrintSigned | student-distrib/lib.c:228-240 | a sign and the numeral of the absolute value, the most negative integer included |
| Printf.SignedReadsBack | student-distrib/lib.c:228-240 | what is printed reads back as the number, sign included |

## Left out

- Port I/O and device programming (interrupt controller, timer, CMOS, cursor registers): only written constants; the logical cursor is modelled.
- Boot messages before `terminal_init`, the descriptor tables, filling the interrupt table: straight-line setup. A tick between enabling interrupts and the first `execute` (student-distrib/kernel.c:173-180) is not modelled: runs start after it.
- Real register and stack contents, `iret`, `leave`, the TLB and the interrupt flag: contexts are opaque and handlers atomic.
- The contents of a program's memory after it starts: the step that enters a program says which bytes were loaded, but no memory is kept; nor is a file longer than the page it is loaded into.
- Entries of the page table behind the screen page past its first one: they are whatever the linker placed there, and translation there is left unspecified.
- Structs as objects: process control blocks, descriptors and terminal entries are values in sequence-typed fields, so two names for one struct cannot be expressed; the code has no such aliases but the parent pointer, which is modelled as the parent's slot.
- Names of 32 bytes and more, arguments of 128 bytes and more, and a null command in `execute`: outside what the code has room for.
- Negative byte counts, and an argument buffer that starts in the program's page and ends past it: the caller's buffer is an array of the size asked for.
- Kernel.Kernel.MapScreen: does not say what happens when the pointer is in the last three bytes of the program's page, where the store runs past it.
- What an interrupted process does after a tick has left it with no current process: the run ends there, and the step only says which variables are whose.
- Exception handlers that print and spin or return (student-distrib/exc_handlers.c:55-59 and 95-106): only those that end the process.
- Signals (unimplemented in the source), the test file, host emulation files, the remaining demo programs, `memmove` and `memset`.
- The main loop of the grep program over the directory.
- Files with NUL bytes in the line search, and a byte after its window that is a newline before anything is written there.
- Grep.DoOneFile: states the printed lines for files whose lines fit the window; for others it states the printed pieces, and `Grep.ExactlyWhenLinesFit` says that the two differ.
- Blink.CharacterBlinks: does not cover a character that is synced, because after a sync the code always shows the off character (fish/blink.S:276-285).
- `mp1_ioctl`'s jump table, and `memcpy` and `memset` of whole structures as byte loops in the fish program: a slot is assigned as one value.
- The format parser of `printf`: only its number conversions.
