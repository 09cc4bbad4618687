# Kasper's speculative emulation, modelled and proved

Kasper looks for transient-execution gadgets by emulating mispredicted branches inside a running
kernel. Before a conditional branch it takes a checkpoint and turns the branch around. While the
kernel runs down the wrong path, every store is logged; then everything is rolled back and the
kernel goes on where it should have gone. The emulation is only useful if it is invisible. This
project models the emulation and proves that it is, and states exactly where it is not.

Main results:

* **Transparency** (`Transparency.Transparent`). Take any program, instrument it by the three passes
  in any order, and run it with any interrupts, checkpoints, swaps and failures in the runtime, any use
  of the stack by the runtime and any garbage below the stack pointer: at every moment, the state it
  would fall back to is the state that the original program reaches in as many steps as have been
  committed, in control, registers, outcome, memory and every byte of the stack in use. Frames are bytes
  of memory, saved at a checkpoint and written by the compiler without any hook. Outside speculation
  this is the state itself. What the passes leave without a hook has to be harmless, and that is exact
  (`Unguarded.TransparentIffHarmless`): an external call or safe assembly anywhere, and any opaque
  operation in a function on the no-speculation list, must not write beyond the frame of its function.
* **Progress** (`Progress.StackSuffices`). A program that stops still stops when instrumented, by a
  lexicographic measure over instruction budget, log, stack, call depth, rank and code left. This is the
  theorem about the code: every compiled call pushes a return address, so every function takes some stack,
  and a stack overflow in speculation is a double fault, which is on the list of exceptions that roll back.
  `Progress.StillTerminates` is the same for programs whose calls may take no stack, which no compilation
  yields; functions on the no-speculation list, whose entries are not counted, must then not call each
  other in a circle by first calls of their entry blocks. `Endless.StopsIffRanked` shows that this
  condition asks for no more than it has to.
* **Rollback exactness** (`Speculation.RollbackIsExact`, `Speculation.NoLiveByteDiffers`), byte by
  byte, for every speculation: overlapping, unaligned and repeated writes, a log that fills up halfway
  through a write, writes without a hook in the saved frame, and the words that the replay skips.
* **Exact exits** (`Exits`). For every speculation, told by what has happened since its checkpoint: when a
  return, an entry, the end of a block, a store or a copy goes on and when it rolls back; when a rollback
  panics; which words are logged, in which order; what the trace says. Nothing is speculated that the kernel
  did not admit, also by the machine (`Causes.NothingWithoutAdmission`), and after every run of every program
  each of the twelve counters is the number of rollbacks that its cause brought about
  (`Causes.CountersFromBoot`).
* **A failed assertion** (`Speculation.PanicsAtOnceIffNoReturn`, `Findings.NextFound`). In speculation it
  panics at once if and only if no nested call has returned since the checkpoint. So the list of one
  hundred reports is written past its end if and only if it is full and a nested call has returned. An
  input is given for each; and over every run a list that was overrun ends in a panic at the next restart.
* **The log in the memory it protects** (`Kspecem.Library`, `Session.Speculate`). The library as a class
  whose log arrays are part of memory. Every method refines the state machine over which the rest is
  proved, so whole speculations are undone, byte by byte, in that memory.
* **Registers, reports, frequency list, number conversion**: the two ways back to a checkpoint agree, and
  the register image of an interrupt survives the rollback, at whatever moment of whatever speculation
  the interrupt comes (`Interrupt.Handle`, `Interrupt.MayAlwaysHandle`); each finding is reported
  at most once; the list counts exactly; the text is the only proper spelling.

## Layout

| file | models |
|---|---|
| `Bytes`, `UndoLog` | memory, words, log entries and their reverse replay |
| `Runtime` | the library's globals as one value, every hook as a function of it |
| `Rollback`, `Speculation` | what the hooks promise about the log; runs of hooks and their invariants |
| `Exits` | when each hook goes on and when it rolls back, and what it leaves behind |
| `LogArrays`, `Kspecem`, `Session` | the log arrays in memory; the library as a class; whole runs of it |
| `Ir`, `Passes`, `Placement` | a small intermediate language, the three passes, where they put their hooks |
| `Machine`, `Transparency`, `Flip`, `Progress` | programs with and without the runtime, and how they relate |
| `Causes` | what starts and what ends the speculations of a machine |
| `Detour`, `Unguarded`, `Endless` | the exact conditions of transparency and progress |
| `Registers`, `Interrupt` | saving the registers and the two ways back; the register image in memory |
| `Reports`, `Frequency`, `Itoa` | the report map and queue, the sorted list of addresses, number to text |
| `Findings` | hooks and reports in one run, with one in-restart flag |

What the instructions of the small language do is stated byte by byte next to the machine
(`Machine.WriteArrives`, `SpillStaysInFrame`, `CallFits`, `CallReturns`, `BranchFollows`).

`dafny verify dfyconfig.toml` checks the whole project.

## Assumptions

* Addresses do not wrap around; counters are unbounded integers.
* The program does not store to the library's own variables and arrays (`Transparency.Apart`). The
  theorems of `Speculation` keep the log outside memory and name the two exempt words instead; with the
  log in memory, `Session.Speculate` proves the same of runs in which no byte of the arrays is written. In
  speculation the hook sees to that by a failed assertion; once a nested call has returned that is only
  recorded, and a store into the arrays then corrupts the log, so that no more can be promised than the
  panic that is due.
* A program knows nothing of the stack below its stack pointer, and a fresh frame is cleared, as a
  function writes its frame before it reads it. Everyone else may write below the stack pointer.
* Control follows the calls: no store hits a return address on the stack. Below the checkpoint a return
  address is restored like any other byte; above it, a wrong path that overwrites one before it returns
  goes where the model does not follow it.
* A frame that is saved at a checkpoint fits the snapshot buffer of 65536 bytes
  (static/kspecem/kspecem_stack.c, line 32). The library asserts it, and `Kspecem.Library.NewCheckpoint`
  says what happens otherwise: a panic, after the frame was overwritten by what the buffer held. The state
  machine and the programs have frames of any size; for larger ones they are not what the code does.
* A fault in speculation is an exception that rolls back, a stack overflow included
  (passes/kspecem-abilists/interrupt-funcs.txt, line 26).
* A store is at most eight bytes wide, since its hook is told the address only; `Rollback.StoreCoverage`
  gives the exact width that is protected. Block copies have any length.
* Instrumented code runs with the library's "in runtime" flag clear, and the hooks run with interrupts
  off as in the source, so a hook is one step.
* The two limits are positive. A failed assertion in the library can strike at any moment and is part
  of every run.

## Where the code and its comments differ

* A failed assertion in speculation is meant to panic at once, and no report is meant to be written
  outside the list of one hundred. But `kspecem_restart` sets its in-restart flag on the return of a nested
  call and does not clear it. The model follows the code, and both fail exactly when a nested call has
  returned since the checkpoint (`Speculation.PanicsAtOnceIffNoReturn`, `Findings.NextFound`); the inputs
  are a call and its return (`Speculation.CallSilencesAssertion`), and the same with 101 accesses after it
  (`Findings.OverrunHappens`).
* The restore of the registers passes a return value in `rax`, as a comment says, and then overwrites
  it by the saved one (`Registers.CheckpointTwice`).
* The pass reads the swap flag as a 32-bit number where the library declares a `bool`. The model has
  one flag.
* The test made when a word is logged forgets the two variables that point to the log arrays; the test
  made when it is restored has them (`Rollback.AdmittedIsRestorable`).

## Model

| member | source | states |
|---|---|---|
| `Bytes.OverlapsMeansSharedByte` | static/kspecem/kspecem_undolog.c:16-20 | for non-empty ranges the overlap test holds if and only if some byte is in both |
| `Bytes.DecodeEncode` | static/kspecem/kspecem_undolog.c:107-109 | an address stored in a log slot reads back as itself |
| `UndoLog.ReplayIsOldest` | static/kspecem/kspecem_undolog.c:127-155 | the reverse replay gives every byte its contents in the oldest entry that covers it and is not skipped, whatever overlaps and repeats there are |
| `UndoLog.ReplayIgnoresCovered` | static/kspecem/kspecem_undolog.c:127-155 | overwriting a covered byte does not change what the replay restores there |
| `UndoLog.ReplayKeepsUncovered` | static/kspecem/kspecem_undolog.c:135-148 | a byte covered by no entry that is replayed keeps its current value |
| `UndoLog.ReplayAfterLogging` | static/kspecem/kspecem_undolog.c:107-113 | logging a word with its current contents, again or for the first time, does not change what a replay restores |
| `Rollback.ExtendsKeepsReplay` | static/kspecem/kspecem_undolog.c:64-114 | the same for any number of words logged in a row |
| `Rollback.WriteWlFaithful` | static/kspecem/kspecem_undolog.c:64-114 | logging an address leaves memory alone and covers its word and, if unaligned, the next one; if the log fills up halfway, memory is what the log before the call restores |
| `Rollback.LogRangeFaithful` | static/kspecem/kspecem_undolog.c:54-62 | the same for the loop over a range, wherever in it the log fills up |
| `Rollback.CopyCoverage` | static/kspecem/kspecem_undolog.c:54-62 | for every address and length, with its start at a multiple of four and steps of eight, the copy hook logs each word about to be written with its contents before the write |
| `Rollback.StoreCoverage` | static/kspecem/kspecem_undolog.c:49-52 | the store hook covers a write of n bytes if and only if n is at most the span of the address, which is never less than eight |
| `Rollback.AdmissionIsExact` | static/kspecem/kspecem_undolog.c:91-98 | the range test made when logging implies that no admitted word overlaps the array, if and only if the array is aligned |
| `Rollback.AdmittedIsRestorable` | static/kspecem/kspecem_undolog.c:22-29 | with aligned arrays an admitted word passes the test made when restoring if and only if it holds neither array pointer |
| `Rollback.DoOpKeepsReplay` | static/kspecem/kspecem_undolog.c:127-155 | a hooked write does not change what a later replay restores, outside the words exempted |
| `Speculation.RunInv` | static/kspecem/kspecem_internal.c:20-122 | between any two hooks of any run: log enabled iff in speculation; swap, in-restart and recorded assertion only in speculation; outside it empty log and depth zero; in it length and depth below their limits; at most as many entries as slots; total equals the sum of categories; depth equals traced entries minus traced returns while the trace has room; all entries admitted |
| `Speculation.Conservation` | static/kspecem/kspecem_stats_restarts.c:12-57 | in every state before a panic total restarts equal the sum of the twelve counters, and checkpoints taken equal restarts plus one exactly if in speculation |
| `Speculation.CountersAreExact` | static/kspecem/kspecem_stats_restarts.c:15-56 | after every run, each of the twelve counters is the number of speculations that ended for its reason |
| `Speculation.BoundedWindow` | static/kspecem/kspecem_interface.c:26-66 | while a speculation lasts, depth is entries minus returns since the checkpoint and stays in [0, max), length is the sum of the charges, and fewer than max blocks have been charged |
| `Speculation.FinalLength` | static/kspecem/kspecem_interface.c:26-40 | however a speculation ends, its length is the sum of all charges, that of its last block included, and less than the limit plus the size of that block |
| `Speculation.StaleIffReturned` | static/kspecem/kspecem_internal.c:61-69 | while a speculation lasts, the in-restart flag is set if and only if it was set before or a nested call has returned |
| `Speculation.PanicsAtOnceIffNoReturn` | static/kspecem/kspecem_assert.c:9-23 | an assertion that fails in a speculation panics at once, with memory rolled back, if and only if no nested call has returned since the checkpoint; otherwise it is recorded and changes nothing else |
| `Speculation.CallSilencesAssertion` | static/kspecem/kspecem_assert.c:15-19 | for every setup that allows one nested call, the run in which it does not panic: a call, its return, a failed assertion |
| `Speculation.ReturnAtDepthZero` | static/kspecem/kspecem_internal.c:63-69 | a return at depth zero always ends the speculation with memory rolled back |
| `Speculation.EndRestores` | static/kspecem/kspecem_internal.c:81-104 | however a speculation ends, memory is the replay of the log with the saved frame copied over it |
| `Speculation.RollbackIsExact` | static/kspecem/kspecem_internal.c:31-122 | after any speculation the whole checkpoint frame is back, even where it was written without a hook and the log captured that; so is every other byte outside the stack region, the skipped and the exempt words; skipped words keep their current value |
| `Speculation.NoLiveByteDiffers` | static/kspecem/kspecem_stack.c:20-41 | if the skipped windows lie below the saved stack pointer, no byte above the dead stack differs from the checkpoint |
| `Speculation.ImageProtectedIffAligned` | static/kspecem/kspecem_undolog.c:142-148 | the replay skips every word that overlaps the register image if and only if the image is aligned |
| `Speculation.ImageSurvives` | static/kspecem/kspecem_undolog.c:142-148 | an aligned register image below the saved frame is unchanged by the restart, whatever was logged |
| `Exits.ReturnGoesOnIff` | static/kspecem/kspecem_internal.c:63-69 | a return goes on if and only if more functions have been entered than left since the checkpoint and no failed assertion is recorded; it leaves memory, log and counters alone |
| `Exits.OtherReasonsEnd` | static/kspecem/kspecem_internal.c:54-122 | every other reason ends the speculation |
| `Exits.EntryGoesOnIff` | static/kspecem/kspecem_interface.c:53-66 | an entry goes on if and only if the functions entered and not left since the checkpoint, itself included, are below the limit |
| `Exits.BlockGoesOnIff` | static/kspecem/kspecem_interface.c:26-40 | the end of a block goes on if and only if all charges since the checkpoint, its own included, are below the limit |
| `Exits.OthersGoOn` | static/kspecem/kspecem_interface.c:82-87 | a branch and a further checkpoint hook go on and change no more than the swap flag and the trace |
| `Exits.WriteGoesOnIff` | static/kspecem/kspecem_undolog.c:54-114 | a store or a copy of ordinary words goes on if and only if the slots allocated suffice for the words logged since the checkpoint and its own: one for a store, two at an unaligned address, and as many for every eight bytes of a copy from the last multiple of four |
| `Exits.LogIsExact` | static/kspecem/kspecem_undolog.c:64-114 | it has then logged exactly these words, of an unaligned address the later one first, with their contents before the write |
| `Exits.WriteTakesEffect` | static/kspecem/kspecem_interface.c:118-135 | a write that goes on is in memory, and nothing else has changed there |
| `Exits.StoreIntoArrays` | static/kspecem/kspecem_undolog.c:86-98 | a store that touches the log arrays while there is room in them panics with memory rolled back if no nested call has returned since the checkpoint, and is only recorded otherwise |
| `Exits.LoggableIff` | static/kspecem/kspecem_undolog.c:64-85 | the model asks no more of an address to be logged than that its words are in memory |
| `Exits.RangeLoggableIff` | static/kspecem/kspecem_undolog.c:54-62 | nor of a range than that the words of its loop are |
| `Exits.IdleOutside` | static/kspecem/kspecem_interface.c:26-135 | outside speculation no hook changes anything, only an admitted checkpoint begins one, and only a failed assertion panics |
| `Exits.NothingWithoutAdmission` | static/kspecem/kspecem_interface.c:68-95 | over every run of hooks: if the tests of the kernel admit no checkpoint, none is taken and nothing is speculated |
| `Exits.TakenIffAdmitted` | static/kspecem/kspecem_interface.c:68-95 | a checkpoint is taken if and only if it is admitted and no speculation is open; the swap flag is then as configured and the snapshot the frame |
| `Exits.OwnStackUntouched` | static/kspecem/kspecem_undolog.c:135-140 | a restart leaves the stack that it runs on as it is, outside the saved frame |
| `Exits.ExemptUntouched` | static/kspecem/kspecem_undolog.c:100-101 | nor does a restart write the log position and the log switch, which are never logged |
| `Exits.WindowIsExact` | static/kspecem/kspecem_undolog.c:135-148 | after any speculation a byte outside the saved frame is what it was just before the end if its word is on that stack or in the register image, and what it was at the checkpoint if not |
| `Exits.CanRestoreIff` | static/kspecem/kspecem_undolog.c:22-29 | the test made before a word is restored fails if and only if the word has a byte of the arrays, of the variables that point to them, or of the log position |
| `Exits.ResumesIff` | static/kspecem/kspecem_internal.c:81-121 | a restart that ends a speculation goes back to the checkpoint if and only if no failed assertion is recorded and no word with an array pointer has to be restored; otherwise it panics |
| `Exits.TraceIsHistory` | static/kspecem/kspecem_statistics.c:17-30 | the trace is the checkpoint and the entries, nested returns and further checkpoint hooks since, in order, and at the end the restart, as far as it has room |
| `Interrupt.FlagsRoundTrip` | static/kspecem/kspecem_interrupt.c:54-55 | the flags register and its word in the image determine each other, over all values of either |
| `Interrupt.FlagPlaces` | static/kspecem/kspecem_interrupt.c:54-55 | each flag is at its place in the register, the upper 52 bits above them |
| `Interrupt.ImageLayout` | static/kspecem/kspecem_interrupt.c:18-63 | each slot of an image is the word at the offset that the handlers copy |
| `Interrupt.ImageStored` | static/kspecem/kspecem_interrupt.c:18-63 | a register image written to memory word by word reads back as itself |
| `Interrupt.Handle` | static/kspecem/kspecem_interrupt.c:9-71 | copying the saved registers into an aligned image and restarting: the closing assertion on the instruction pointer holds whatever was logged, the image still holds the saved registers, and a return through it agrees with the synchronous way back; the restart is counted as that of a timer, a page fault or another exception, unless an assertion is due, and panics if one is; the rest of memory is as after any restart |
| `Interrupt.MayAlwaysHandle` | static/kspecem/kspecem_interrupt.c:9-71 | what the handler needs holds at every moment of every speculation, for any aligned image below the saved frame and any registers |
| `Interrupt.MayHandleFirst` | static/kspecem/kspecem_interrupt.c:9-71 | in particular right after the first checkpoint from the initial state, for any memory and any frame with room for an image below it |
| `Speculation.PanicIsDue` | static/kspecem/kspecem_internal.c:61-114 | once a failed assertion is recorded no checkpoint is taken, and the next restart of any kind, a nested return included, panics |
| `Speculation.AssertionNeverLost` | static/kspecem/kspecem_assert.c:9-23 | over every run, an assertion that fails is never lost: the run panics, at the latest at the next restart, or ends in the same speculation with the panic still due |
| `Speculation.PanicsAfterRollback` | static/kspecem/kspecem_assert.c:9-23 | a panic is raised only outside speculation and with memory rolled back |
| `LogArrays.WriteClear` | static/kspecem/kspecem_undolog.c:152-154 | a write clear of the arrays is a write to program memory and keeps every entry of the log |
| `LogArrays.FillSlot` | static/kspecem/kspecem_undolog.c:103-113 | filling the next slot appends one entry and leaves program memory alone |
| `LogArrays.PopSlot` | static/kspecem/kspecem_undolog.c:127-155 | writing the newest entry back happens in program memory and keeps the older entries readable |
| `Kspecem.PopThenRestore` | static/kspecem/kspecem_undolog.c:127-155 | taking the newest entry off and replaying the rest equals the whole replay, the record of failed tests included |
| `Kspecem.Library.constructor` | static/kspecem/kspecem_internal.c:20-29 | the initial state |
| `Kspecem.Library.RestoreWritelog` | static/kspecem/kspecem_undolog.c:116-159 | the loop over the arrays in memory computes the reverse replay, does not corrupt the log it reads, and leaves the stack it runs on as it is |
| `Kspecem.Library.AddTrace` | static/kspecem/kspecem_statistics.c:17-30 | appends unless the trace is full |
| `Kspecem.Library.AddRestart` | static/kspecem/kspecem_stats_restarts.c:12-57 | counts a restart in total and in its category |
| `Kspecem.Library.EndSpeculation` | static/kspecem/kspecem_internal.c:89-104 | replay, flags and frame copy together are the rollback |
| `Kspecem.Library.Restart` | static/kspecem/kspecem_internal.c:54-122 | new state and way of leaving are those of the state machine, in all branches |
| `Kspecem.Library.Panic` | static/kspecem/kspecem_assert.c:9-23 | likewise for a failed assertion |
| `Kspecem.Library.Append` | static/kspecem/kspecem_undolog.c:103-113 | the log grows by the word and its contents, everything else stays |
| `Kspecem.Library.LogAligned` | static/kspecem/kspecem_undolog.c:79-113 | full log, word in the arrays, exempt word and ordinary word |
| `Kspecem.Library.WriteWl` | static/kspecem/kspecem_undolog.c:64-114 | an unaligned address logs the next word first, and only then its own, unless the first did not return |
| `Kspecem.Library.HookStore` | static/kspecem/kspecem_interface.c:118-126 | logs if the log is on |
| `Kspecem.Library.HookMemcpy` | static/kspecem/kspecem_interface.c:128-135 | the loop logs the whole range, or stops at the word that did not fit |
| `Kspecem.Library.CheckSpecLength` | static/kspecem/kspecem_interface.c:26-40 | charges a block and restarts at the limit |
| `Kspecem.Library.CheckCallDepth` | static/kspecem/kspecem_interface.c:53-66 | counts an entry and restarts at the limit |
| `Kspecem.Library.OpenSpeculation` | static/kspecem/kspecem_internal.c:31-52 | counters, trace and log start afresh, speculation, log and swap are on, and memory is untouched |
| `Kspecem.Library.SaveStack` | static/kspecem/kspecem_stack.c:24-41 | the snapshot is the frame as it is in program memory if the frame fits the buffer; if not, the failed assertion panics after the rollback has written over the frame what the buffer held |
| `Kspecem.Library.NewCheckpoint` | static/kspecem/kspecem_interface.c:68-95 | takes a checkpoint if and only if admitted, no assertion is recorded and none is open; saves the frame, or panics if it does not fit the buffer |
| `Session.Perform` | static/kspecem/kspecem_interface.c:118-135 | a write with its hook, or without one, on the memory that holds the log is the same write in the state machine |
| `Session.Drive` | static/kspecem/kspecem_interface.c:26-135 | every run of hooks and writes on the library ends in the state and in the way that the state machine says |
| `Session.Speculate` | static/kspecem/kspecem_internal.c:31-122 | after a whole speculation on the library every byte outside the arrays is back, but for the unused stack, skipped and exempt words, although the log lies in the memory that is written and restored; any run in which no byte of the arrays is written, and none of their words is logged while the in-restart flag is set |
| `Session.FullRestart` | static/kspecem/kspecem_internal.c:54-122 | the whole restart: rollback and counting, the list of assembly addresses if and only if the counter of assembly restarts grows and that list is on, pending reports printed once memory is back unless the reason is a timer or an exception, and then the panic that is due |
| `Passes.RunSpecPass` | passes/kspecem-spec/KSpecEmSpec.cpp:149-194 | the walk over the blocks computes the speculation pass |
| `Passes.VisitBlock` | passes/kspecem/KSpecEm.cpp:367-443 | the visitor over a block computes the restart pass |
| `Passes.RunRestartPass` | passes/kspecem/KSpecEm.cpp:161-226 | the visitor over a function computes the restart pass, with the blacklist and interrupt lists before everything else |
| `Passes.RunLengthPass` | passes/kspecem-check-spec-length/KSpecEmCheckSpecLength.cpp:62-76 | the walk over the blocks computes the length pass |
| `Passes.InstrumentErases` | passes/kspecem/KSpecEm.cpp:161-226 | whatever passes ran, in whatever order, erasing the hooks gives the program back |
| `Placement.InstrumentIsWellHooked` | passes/kspecem-check-spec-length/KSpecEmCheckSpecLength.cpp:47-77 | for every order of the passes: each write has its own hook right before it; each branch one checkpoint hook after the last instruction; each block one charge of at least one; entry, return and blacklist hooks where they belong; before assembly and before a call through a pointer a restart for that reason |
| `Placement.HooksAreCounted` | passes/kspecem/KSpecEm.cpp:367-443 | in every order each block gets exactly as many hooks of each kind as its stores, copies, opaque operations, its terminator and the lists of its function call for |
| `Placement.EntryHookedIffReturnHooked` | passes/kspecem-spec/KSpecEmSpec.cpp:152-187 | with the same lists and in every order, any function has exactly one entry hook and one hook at each return, or neither |
| `Placement.ChargeCoversBlock` | passes/kspecem-check-spec-length/KSpecEmCheckSpecLength.cpp:62-75 | for every order of the passes, a block is charged at least for all its own instructions and its terminator |
| `Placement.ChargeIsFair` | passes/kspecem-check-spec-length/KSpecEmCheckSpecLength.cpp:62-75 | and at most for all that is in it in the end |
| `Placement.GuardedExactly` | passes/kspecem/KSpecEm.cpp:367-380 | all instructions of a block are guarded if and only if what gets no hook is harmless: external calls, and on the no-speculation list all opaque operations |
| `Transparency.StepTransparent` | static/kspecem/kspecem_internal.c:54-122 | one step of an instrumented program leaves the program behind it where it is or carries out its next step, and keeps the machine's invariant |
| `Transparency.ScribbleStep` | static/kspecem/kspecem_stack.c:20-23 | whatever is written below the stack pointer, in or outside speculation, changes nothing that the program sees or that a rollback restores |
| `Transparency.AnyWindowRestores` | static/kspecem/kspecem_undolog.c:135-148 | whichever words of the unused stack a restart skips, every other byte is restored alike |
| `Transparency.Transparent` | passes/kspecem-spec/KSpecEmSpec.cpp:208-267 | every run of every instrumented program, in every order of the passes and under all choices, stands for the original program after the committed steps, in all but the unused stack |
| `Transparency.OutsideSpeculation` | static/kspecem/kspecem_internal.c:93-121 | outside speculation control, outcome and every byte of memory and of the stack in use are those of the original program, also when it panics |
| `Flip.FlippedAtMostOnce` | passes/kspecem-spec/KSpecEmSpec.cpp:238-267 | while the swap flag is set the machine stands before the branch of the checkpoint, with its values; flips are at most as many as checkpoints; outside speculation the flag is clear |
| `Flip.FlipsFromBoot` | static/kspecem/kspecem_internal.c:42-45 | the same for every source program, order of passes and run from its start |
| `Flip.CheckpointArms` | static/kspecem/kspecem_internal.c:42-45 | a checkpoint with swapping on starts a speculation with the flag set |
| `Flip.ArmedUntilBranch` | passes/kspecem-spec/KSpecEmSpec.cpp:250-266 | with the flag set, the next step rolls back, keeps the flag, or is the branch, which goes against its condition and clears the flag |
| `Causes.NothingWithoutAdmission` | static/kspecem/kspecem_interface.c:68-95 | a machine whose choices admit no checkpoint never speculates |
| `Causes.NoFlipWithoutSwapping` | static/kspecem/kspecem_internal.c:42-45 | a machine whose choices have swapping off runs no branch the wrong way |
| `Causes.HookIsEvent` | passes/kspecem-spec/KSpecEmSpec.cpp:208-267 | every hook of an instrumented program is the event of that name, with its reason, charge, verdict and frame, and the hook of a write is called for that write |
| `Causes.CountersTellCauses` | static/kspecem/kspecem_stats_restarts.c:15-56 | over every run without a panic each of the twelve counters grows by the number of rollbacks brought about by what it stands for: an interrupt of that kind, a hook with that reason, a limit, a full log, or a fault |
| `Causes.CountersFromBoot` | static/kspecem/kspecem_stats_restarts.c:15-56 | so that after every such run of every program from its start each counter is that number |
| `Progress.StepDescends` | static/kspecem/kspecem_interface.c:26-66 | every step that commits nothing makes the lexicographic measure smaller |
| `Progress.StillTerminates` | passes/kspecem-check-spec-length/KSpecEmCheckSpecLength.cpp:62-75 | a program that stops still stops when instrumented, under every endless sequence of choices, if no circle of first calls on the no-speculation list takes no stack and logs nothing |
| `Progress.StackSuffices` | passes/kspecem-abilists/interrupt-funcs.txt:22-26 | the same without any condition on calls, where every function takes some stack, as compiled code does |
| `Unguarded.TransparentIffHarmless` | passes/kspecem/KSpecEm.cpp:228-380 | for every operation that gets no hook, an external call in any function or an opaque one on the no-speculation list: all runs of the programs that might come to it are transparent if and only if it never writes beyond the frame of its function |
| `Unguarded.HarmfulIsSeen` | passes/kspecem/KSpecEm.cpp:367-380 | the run that shows the failure: a rollback that leaves the operation's memory behind |
| `Endless.StopsIffRanked` | passes/kspecem-spec/KSpecEmSpec.cpp:152-158 | the condition of `StillTerminates` is exact for arbitrary functions on the no-speculation list, with any blocks, that only compute up to the first call or logged write of their entry block: all runs of all programs that might call into them stop, in every order of the passes, if and only if the functions can be ranked |
| `Registers.SaveRegisters` | static/kspecem/kspecem_regs.S:4-33 | saves nothing if and only if the verdict is negative; otherwise all registers but rsi and rdi as they were at the call, the return address, the stack pointer after the return and the flags after the xor; writes one word below the stack pointer |
| `Registers.XorFlagsByResult` | static/kspecem/kspecem_regs.S:25-30 | the flags after a register was xored with itself are those of the result, for every value |
| `Registers.RestoreRegisters` | static/kspecem/kspecem_regs.S:36-62 | every register but rdx, rsi and rdi is as saved, although some carry other values on the way; the only write is just below the restored stack pointer |
| `Registers.CopyToImage` | static/kspecem/kspecem_interrupt.c:18-63 | the image holds the saved slots, all but error code and segments |
| `Registers.CheckpointTwice` | static/kspecem/include/calling.h:10-42 | save, then both ways back: same instruction and stack pointer, flags and registers, all of the callee-saved set of section 3.2.1 of the System V AMD64 ABI included; they differ in rdx, rsi and rdi exactly if the area holds other values there |
| `Reports.PlacesExistAndDiffer` | static/kspecem/kspecem_bugs.c:26-42 | for every text size each address of the text has a place in the two-level map, and no two share one |
| `Reports.MapIsTight` | static/kspecem/kspecem_bugs.c:26-42 | the map is a whole number of pages, at most one more than the text needs, in as few blocks as hold it |
| `Reports.MarkIsExact` | static/kspecem/kspecem_bugs.c:51-71 | setting the bit of one kind of access marks that kind and no other |
| `Reports.Reporter.constructor` | static/kspecem/kspecem_bugs.c:26-47 | the allocated blocks cover the text, do not alias and are clear |
| `Reports.Reporter.AlreadyReported` | static/kspecem/kspecem_bugs.c:85-98 | answers membership in the set of findings |
| `Reports.Reporter.SetReported` | static/kspecem/kspecem_bugs.c:100-109 | adds exactly one finding to the set |
| `Reports.Reporter.ShouldReport` | static/kspecem/kspecem_bugs.c:111-125 | the decision at every level, and its failure outside the text |
| `Reports.Reporter.PrintAndClear` | static/kspecem/kspecem_bugs.c:127-155 | the loop prints what the specification keeps, between one begin and one end, and empties the queue |
| `Reports.Reporter.AccessReport` | static/kspecem/kspecem_bugs.c:159-193 | queues in speculation, prints outside it, fails when the list is full; with a stale in-restart flag it goes on behind the end of the list, as long as there is memory |
| `Reports.ListBound` | static/kspecem/kspecem_bugs.c:166-172 | over every run the list is exceeded at most by the number of reports made in speculation with a stale flag, so without any of those no write leaves it |
| `Reports.OverrunIff` | static/kspecem/kspecem_bugs.c:166-172 | over the reports of one speculation the list is exceeded if and only if there are more than a hundred and the flag is stale for the hundred and first |
| `Findings.OneFlag` | static/kspecem/kspecem_assert.c:9-23 | with a full list, a report fails if and only if its assertion panics in the runtime, with the flag of the runtime |
| `Findings.StaysCounts` | static/kspecem/kspecem_bugs.c:159-193 | while a speculation lasts, hooks and reports in any order, the list grows by one for each access found and the flag is set exactly once a nested call has returned |
| `Findings.NextFound` | static/kspecem/kspecem_bugs.c:166-172 | the next access found in any speculation is written past the end of the list if and only if the list is full and a nested call has returned since the checkpoint; it panics if and only if the list is full and none has, after what was pending has been printed |
| `Findings.FoundIsStamped` | static/kspecem/kspecem_bugs.c:174-187 | an access found in speculation is queued behind the others, stamped as speculative and with the sum of the charges since the checkpoint |
| `Findings.EndPrints` | static/kspecem/kspecem_internal.c:104-109 | while a speculation goes on nothing is printed; at its end the reports are printed and the list is emptied, unless it was ended by a timer or an exception, which leave both alone |
| `Findings.OverrunHappens` | static/kspecem/kspecem_bugs.c:166-172 | the input for it: a call that returns, and 101 accesses |
| `Findings.OverrunIsFatal` | static/kspecem/kspecem_bugs.c:166-172 | over every run of hooks and reports, once the list is exceeded a panic is due |
| `Reports.NoneIsSilent` | static/kspecem/kspecem_bugs.c:111-155 | at the level of no reports nothing is printed and the list is emptied |
| `Reports.DuplicatesPrintAll` | static/kspecem/kspecem_bugs.c:111-155 | at the level of duplicates every pending report is printed, in order, and nothing is marked |
| `Reports.DefaultPrintsNew` | static/kspecem/kspecem_bugs.c:111-155 | at the default level those reports are printed, in order, that are the first of their finding |
| `Reports.StopsAtForeign` | static/kspecem/kspecem_bugs.c:73-83 | printing stops at the first report that is not from kernel text: those before it are out, without an end, and the list stays |
| `Reports.OutsideIsPrinted` | static/kspecem/kspecem_bugs.c:189-193 | an access found outside speculation is printed at once |
| `Reports.EpisodeIsReported` | static/kspecem/kspecem_bugs.c:111-155 | after any events, what is found in a speculation is printed at its end as the level set last says, or stays pending if it ends without printing |
| `Reports.ReportedOnce` | static/kspecem/kspecem_bugs.c:111-155 | over every run and any switching of levels, a finding is reported at most once under the default level, and the map holds exactly the findings so reported |
| `Reports.PendingIsReported` | static/kspecem/kspecem_bugs.c:138-148 | after printing at the default level every finding in the queue has been reported exactly once |
| `Reports.FailsOutsideText` | static/kspecem/kspecem_bugs.c:73-83 | printing fails if and only if, at the default level, a pending report is not from kernel text |
| `Frequency.FrequencyList.AddRestart` | static/kspecem/kspecem_stats_inlineasm.c:19-49 | search and shift in place compute the specified list |
| `Frequency.ListCountsCalls` | static/kspecem/kspecem_stats_inlineasm.c:19-49 | after every sequence of calls the list is sorted by falling count, has each address once with exactly the number of its calls, and holds exactly the first forty distinct addresses |
| `Frequency.TiesByArrival` | static/kspecem/kspecem_stats_inlineasm.c:30-34 | after every sequence of calls, addresses with equal counts stand in the order of their last calls |
| `Frequency.LostOnlyWhenFull` | static/kspecem/kspecem_stats_inlineasm.c:40-43 | a call is lost only for a new address that comes after forty others |
| `Itoa.ReverseStr` | static/kspecem/kspecem_utils.c:71-81 | reverses a prefix in place and leaves the rest |
| `Itoa.WriteDigits` | static/kspecem/kspecem_utils.c:94-98 | the digit loop writes the numeral backwards |
| `Itoa.Itoa` | static/kspecem/kspecem_utils.c:82-103 | the buffer holds the text of the number and a zero, and is unchanged after that |
| `Itoa.TextThenParse` | static/kspecem/kspecem_utils.c:82-103 | the text has no leading zeros and parses to the number, in every base from 2 to 36 and for negative numbers in base 10 |
| `Itoa.ParseThenText` | static/kspecem/kspecem_utils.c:82-103 | and it is the only such text |

## Left out

- Interrupt flags, preemption counting, stopping of non-maskable interrupts, and the "in runtime" flag: foreign primitives; a hook is one step.
- Passes.RunRestartPass: leaves timer and exception handlers as they are, where the source inserts a hook and splits the entry block of the latter; in speculation an interrupt is a restart of its kind (`Interrupt.Handle`), outside it nothing the program sees.
- Transparency.Transparent: which function and block a caller goes on with is kept as a value, not read from the stack, so runs in which a wrong path overwrites a return address before it returns are not among those of the model; all other contents of frames are bytes of memory.
- Transparency.OutsideSpeculation: the same runs.
- Names by which the passes skip functions of the library and of the sanitizers, and the lists of function names: categories are given.
- The list of assembly strings considered safe: an opaque operation is one that the pass would put a restart hook before, an external one is any other call that leaves the program. A call to a function that the program does not have is a fault.
- The instruction numbers charged by the length pass: a hook counts as one instruction, where the compiler inserts a few; only that a charge is at least one is used.
- The store that clears the swap flag: part of the branch; the log word that a hook before it would produce lies outside program memory.
- `kspecem_writelog_meta`: return addresses kept for debugging only.
- Kspecem.Library.AddRestart: without the list of assembly addresses, which `Session.FullRestart` updates beside it.
- Kspecem.Library.Restart: without the printing of pending reports, which `Session.FullRestart` adds.
- Kspecem.Library.LogAligned: requires that no store goes into the log arrays while the in-restart flag is stale, because the code then logs the arrays themselves after a failed assertion that it only records; with the flag clear such a store is covered and panics.
- Kspecem.Library.WriteWl: the same condition for the word of the address and the one after it.
- Kspecem.Library.HookStore: the same condition for the words of a store.
- Kspecem.Library.HookMemcpy: the same condition for the words of a copy.
- Session.Speculate: the same condition for the words of every write, and no write to the arrays outside speculation, where no hook is on.
- Reports.Reporter.AccessReport: the text of labels and the printing itself; memory behind the list is seen as further slots.
- Itoa.Itoa: requires what the code needs and does not check: a base from 2 to 36, a negative number in base 10 only and above the minimum, and a large enough buffer.
- Endless.StopsIffRanked: about functions that take no stack, which no compilation yields; for programs in general `Progress.StillTerminates` goes one way, since a circle may be out of reach of every wrong path or end in a fault. `Progress.StackSuffices` has no such condition.
- Unguarded.TransparentIffHarmless: exact for each operation in programs that could reach it; for programs in general `Transparency.Transparent` goes one way, since a harmful operation may be out of reach.
- Registers: segment registers and vector state; the adjust flag is kept by the xor, which leaves it undefined on the processor.
- The page-fault checker, the task whitelist, debug file system, report text and stack dumps: thin or foreign.
