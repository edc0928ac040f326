# A verified model of the bare-metal drivers of the AM335x board

The repository is firmware without an operating system: an SD card driver on top of a DMA controller, a serial console with
a few file commands, a freestanding C library, the memory management unit and the Ethernet switch. The code works by loops,
buffers and registers, so most of this model is imperative: the hardware is a handful of small classes (a register file with
set and clear semantics, a card of blocks, a DMA engine that executes its parameter set, a lookup table behind a window
register), the drivers are methods that act on them, and each method is proved against a specification whose own
properties are lemmas.

Verify with `dafny verify dfyconfig.toml` (Dafny 4.11).

## What is proved

- **Block transfers** (`ParamSets`, `MmcCommand`, `MmcHost`, `MmcSequence`, `MmcDriver`, `MmcInit`). The card and the DMA
  engine see only register contents: the command word is decoded bit by bit, the parameter set is unpacked from eight words
  and interpreted as a strided 3-D transfer, and data moves only if card, controller and channel agree. On top of that stands
  read after write, end to end: after a successful write and a successful read the buffer read equals the buffer written and
  every other card block is unchanged. The conditions are exact where they can be: the strided transfer is the flat copy if
  and only if the geometry fits the 16-bit fields; a command addresses the intended block if and only if the byte address does
  not wrap; beyond 65535 blocks a concrete family of stores shows that data is lost.
- **The flag protocol** (`MmcProtocol`, `MmcLate`). Main thread, interrupt routines, controller and DMA completion interleave one
  volatile access at a time. An invariant over every run shows what may be left over when a command is written and that a wait
  reports its own phase and nothing else. Where that fails the model has the run from the initial state and the exact
  condition: the busy phase of CMD7, which nobody waits for, may end the wait for a later data phase; an unanswered CMD12
  leaves the driver in its loop for ever; a command report in two parts fools a later command unless the parts join in the
  status register; the callback of a DMA transfer that was given up ends the next poll.
- **DMA controller** (`EdmaQueues`, `EdmaContext`, `EdmaIsr`). Packed nibbles refine a map from channels to queues; save and
  restore is exact if and only if the target has no foreign enables; the completion interrupt routine dispatches every pending
  bit once and loses none that arrive meanwhile.
- **Console** (`Tokens`, `Console`, `Paths`, `Commands`, `Session`). The line editor with its 8-bit index refines an editor on
  values; the in-place tokenizer with its aliasing pointers refines splitting the line at spaces; `cd` and `rm` on C strings
  refine operations on lists of directory names. Composed, every run of keystrokes on buffer, index, static argument vector and
  working directory does what a session on values does, up to the requests to the file system. They follow from the lines
  typed alone exactly as long as no line is a file command of one word.
- **C library** (`Libc`, `Printf`), **page table** (`Mmu`), **bus clock** (`MmcClock`), **Ethernet switch** (`Cpsw`).

Results that come out against the code's comments or its evident intent, all kept as the code has them:

- `argv` at `drivers_C/con_uif.c:663` is static, and `Cmd_cd` and `Cmd_rm` read `argv[1]` whatever `argc` is: the lines `cat X`
  and `rm` ask for X to be deleted (`Session.CatThenRm`). `Commands.LineAloneDecides` is the exact condition, `Session.TwoLines`
  the exact argument right after any line of two words or more, and `Session.NullArgument` the case of the pointer that is still null.
- The polls at `mmc_lib/mmc_api.c:106-109` and `mmc_lib/mmc_api.c:387-392` test for zero after a post-decrement. An exhausted
  poll has wrapped to 0xFFFFFFFF and counts as success; success on the very last poll counts as failure, so that a write may
  report failure although the card holds the data (`MmcDriver.Mmc.GetXferStatus`, `MmcDriver.Mmc.MoveBlocks`,
  `MmcInit.AwaitPowerUp`).
- Initialisation can report success with version and bus width from stale memory (`MmcInit.StaleRegister`).
- `0x1 < 0x16` at `mmc_lib/mmc_api.c:190` is a comparison, so the bus-suspend flag turns DMA on (`MmcCommand.Decoded`).
- `mmc_lib/mmc_api.c:334` ignores the status of CMD12 (`MmcProtocol.StopReturns`, `MmcDriver.Mmc.StopCmdSend`), and nobody waits for
  the busy phase of CMD7 (`MmcProtocol.SelectionMisleads`, `MmcProtocol.DataWaitIsOwn`, `MmcProtocol.ClearsInTime`).
- The context of the DMA controller sets saved events before it restores the parameter sets (`EdmaContext.TriggersStale`).
- `strncpy` reads past the command buffer for every absolute path that `cd` or `rm` copies (`Session.Session.CmdLineParse`); the result does
  not depend on what lies there.
- Remapping a QDMA channel only sets bits (`EdmaQueues.QdmaRemap`).
- The loop that clears the page table starts one cell past its end and misses entry 0 (`Mmu.Init`). The model gives the table
  one spare cell.
- With a retry count of zero `MMCIsIntClockStable` still reads the status once, although the comment at
  `mmc_lib/mmc_hwif.c:188-189` says that it does not (`MmcClock.SysCtl.IsIntClockStable`).
- The 256th character typed empties the line, because the index is an `unsigned char` (`Console.Press`, `Console.TypedText`);
  backspace is not the inverse of typing exactly there (`Console.BackspaceUndoes`).
- `cd ..` at the root leaves an empty path (`Paths.CdKeepsProper`), from which another `cd ..` searches below its buffer
  (`Paths.Shell.CmdCd`); `rm /` is refused only from the root (`Paths.RmGuard`).
- Signed division is right only for positive denominators and numerators above minus the denominator
  (`Libc.SignedDivisionCorrect`); `%d` prints
  characters that are not digits for every negative number (`Printf.DecimalRoundTrip`).

## Conventions

- Values of hardware choices (how long each phase takes, whether it succeeds, responses, arrivals of interrupts, results of
  `f_opendir` and `f_unlink`) are functions or parameters, so every theorem holds for all of them.
- The data cache is two copies of memory: `view` is what the CPU sees, `ram` what the DMA engine sees. Cleaning copies a range
  from the first to the second, invalidating the other way.
- `Holds(m, p, s)` says that memory `m` holds the C string `s` at `p`. Ghost parameters name the strings a method works on.
- Plain `char` is unsigned, as on this target.
- `Timely` says that every DMA completion is handled by the last poll the driver makes for it. It is assumed for block
  operations only; `MmcDriver.Mmc.GetXferStatus` and `MmcInit.CardInit` say what happens for every lag.
- `MmcProtocol.Whole` says that every command phase raises its status bits at once. `MmcLate.LateIsHarmless` says exactly when
  that matters.

## Model

| member | source | states |
|---|---|---|
| ParamSets.UnpackPack | drivers_C/dma.c:704-719 | the controller unpacks from the eight words exactly the fields the driver packed, signed indices included, whenever they fit their fields |
| ParamSets.StridedIsFlat | mmc_lib/mmc_api.c:117-164 | the AB-synchronised 3-D address sequence is the flat one if and only if block size and count fit their 16-bit fields as FlatGeometry says |
| ParamSets.RxTouchesExactly | mmc_lib/mmc_api.c:117-138 | a receive transfer touches each byte of the buffer once and in order if and only if the geometry fits |
| ParamSets.TxTouchesExactly | mmc_lib/mmc_api.c:143-164 | the same for a transmit transfer |
| ParamSets.BlockIsFlat | mmc_lib/mmc_api.c:117-138 | frames that follow each other without a gap make up one flat range, for every array size, frame size and frame count |
| ParamSets.SecondFrameStart | mmc_lib/mmc_api.c:125-129 | the second frame starts one frame index after the first; this is what fails for block sizes of 0x8000 and more |
| ParamSets.BlockOnRegister | mmc_lib/mmc_api.c:120-122 | the peripheral side of the transfer stays on the four bytes of the data register throughout |
| MmcCommand.DecodeCmdWord | mmc_lib/mmc_api.c:183-222 | what the controller decodes from the composed command word, response and command type included, is what the caller's flags mean, for every command, flag set and DMA state |
| MmcCommand.FlagBits | mmc_lib/include/mmc_api.h:66-74 | each flag of a caller is its own bit of the flag word |
| MmcCommand.Decoded | mmc_lib/mmc_api.c:183-222 | the whole command word for any flag word, bit by bit: index, command type, response type (none 0, 136 bits 1, 48 bits with busy 3, otherwise 2), data, direction; DMA is enabled unasked exactly by the stop flag |
| MmcHost.JoinChunks | mmc_lib/mmc_api.c:474-539 | cutting a buffer into card blocks and joining them again gives the buffer back |
| MmcHost.ScatterFlat | mmc_lib/mmc_api.c:117-138 | writing data to consecutive addresses byte by byte replaces exactly that stretch of memory |
| MmcSequence.BlockRegister | mmc_lib/mmc_hwif.c:435-442 | after the length and the count are written to the shared register, both halves read back as written, the count modulo 2^16 |
| MmcSequence.ProgrammedParams | mmc_lib/mmc_api.c:117-178 | the channel the engine will use holds the parameter set of this transfer |
| MmcSequence.BlockWords | mmc_lib/mmc_api.c:117-164 | the eight words written for the blocks of a transfer, in both directions |
| MmcSequence.BlockFlags | mmc_lib/mmc_api.c:485-526 | index and flag word of the four block commands, the abort type only for several blocks |
| MmcSequence.IssuedCount | mmc_lib/mmc_api.c:197-203 | only a command with data announces blocks, modulo 2^16 |
| MmcSequence.ReadMoves | mmc_lib/mmc_api.c:511-531 | the register writes of a block read make the engine move exactly the addressed blocks to the buffer, or nothing |
| MmcSequence.WriteMoves | mmc_lib/mmc_api.c:474-494 | the register writes of a block write make the engine move exactly the buffer to the addressed blocks, or nothing |
| MmcSequence.BlockSequence | mmc_lib/mmc_api.c:474-531 | both directions together, for the command index and flags the driver chooses by block count |
| MmcSequence.CardReceivesView | mmc_lib/mmc_api.c:483-484 | because the cache is cleaned first, the blocks the card stores are byte for byte what the CPU sees, however stale the RAM was, and no other block changes |
| MmcSequence.ScrSequence | mmc_lib/mmc_api.c:445-451 | ACMD51 with an 8-byte block moves the configuration register to the start of the buffer |
| MmcSequence.AddressesBlock | mmc_lib/mmc_api.c:481-482 | the command argument addresses the intended block if and only if the card is block-addressed or the byte address fits 32 bits |
| MmcSequence.ReadAfterWrite | mmc_lib/mmc_api.c:474-539 | writing n blocks from p and reading them to q puts p's bytes at q, changes nothing else the CPU sees and no other card block |
| MmcSequence.BeyondCount | mmc_lib/mmc_api.c:129-131 | past the truncated block count the buffer read back shows stale memory |
| MmcSequence.LongTransferLosesData | mmc_lib/mmc_api.c:129-131 | for every count above 65535 with a non-zero low half there is a store where the buffer read differs from the buffer written |
| MmcDriver.Mmc.Mmc0Isr | mmc_lib/mmc_api.c:722-733 | each flag is raised exactly by its status bit, timeouts only together with the error bit, and no flag is ever lowered |
| MmcDriver.Mmc.GetCmdStatus | mmc_lib/mmc_api.c:71-84 | returns 1 exactly when the last command's phase succeeded, leaves no command flag set and the transfer phase started; a stray phase that ends meanwhile raises its flag |
| MmcDriver.Mmc.AwaitReport | mmc_lib/mmc_api.c:95 | with a second phase in flight or flags left over: ends exactly if a flag is set or a phase in flight, at the first report of either, with flags, phases and DMA engine as they are by then |
| MmcDriver.Mmc.PollCallback | mmc_lib/mmc_api.c:106-107 | the exact number of polls for every lag of the completion; after 65535 the counter has wrapped |
| MmcDriver.Mmc.Collect | mmc_lib/mmc_api.c:96-109 | the value reported, where the data is, and the flags that come in behind the report, for every lag of the DMA completion |
| MmcDriver.Mmc.GetXferStatus | mmc_lib/mmc_api.c:91-112 | whatever else is in flight: returns exactly if a flag is set or a phase in flight, and reports the phase that ends first; where the data is for every lag of the DMA completion; a lag of exactly 0xFFFF polls turns success into failure |
| MmcDriver.WaitAlone | mmc_lib/mmc_api.c:91-112 | a wait whose phase is the only one in flight reports how that phase ended, save for the last-poll quirk, with the data moved exactly if the completion lags by at most 0xFFFF polls |
| MmcDriver.Mmc.XferSetup | mmc_lib/mmc_api.c:169-178 | clears the two flags, enables DMA and leaves the registers programmed for the transfer |
| MmcDriver.Mmc.CmdSend | mmc_lib/mmc_api.c:183-228 | one command goes out, the registers mean what was asked, the response is stored only on success; an answered busy command starts a busy phase, and a phase still in flight goes astray and may set its flag |
| MmcDriver.Mmc.StopCmdSend | mmc_lib/mmc_api.c:327-337 | CMD12 and its busy phase: does not return exactly if CMD12 is not answered, otherwise reports the busy phase |
| MmcDriver.Mmc.Callback | mmc_lib/mmc_api.c:544-547 | reports completion and disables the event of the channel, and only that |
| MmcDriver.Mmc.DmaStep | mmc_lib/mmc_api.c:544-547 | the data is in place by the time the completion is visible |
| MmcDriver.Mmc.BlocksStarted | mmc_lib/mmc_api.c:484-493 | after a successful data command the transfer phase in flight is the one asked for, and moves data exactly if it will succeed |
| MmcDriver.Mmc.StartData | mmc_lib/mmc_api.c:169-228 | set-up and command together leave the registers programmed and issued as the caller described, with DMA enabled |
| MmcDriver.Mmc.StartBlocks | mmc_lib/mmc_api.c:484-493 | sends the single- or multiple-block command for the address and leaves exactly that transfer in flight, due to move data exactly if it will succeed |
| MmcDriver.Mmc.FinishTransfer | mmc_lib/mmc_api.c:494-498 | exact outcome of data phase and stop command, not returning included; CMD12 goes out exactly after several blocks have moved |
| MmcDriver.Mmc.MoveBlocks | mmc_lib/mmc_api.c:484-498 | exact outcome, trace and store: all of the data has moved if the data phase succeeds, also where a callback on the last poll makes it a failure, none otherwise; DMA stays enabled if and only if the data command fails |
| MmcDriver.Mmc.WriteCmdSend | mmc_lib/mmc_api.c:474-501 | 1 exactly when every phase succeeds, the blocks exist and the callback is not found on the last poll only, no return exactly when CMD12 is due and not answered; the trace is exactly 24, or 25 followed by 12 once data has moved; the card then holds what the CPU saw at ptr, and nothing else changes |
| MmcDriver.Mmc.ReadCmdSend | mmc_lib/mmc_api.c:511-539 | the same outcomes; the trace is exactly 17, or 18 followed by 12 once data has moved; after success the CPU sees the blocks at ptr, otherwise what it saw before; the card is never changed |
| MmcInit.AppCmdSend | mmc_lib/mmc_api.c:233-244 | CMD55 with the relative address comes first, and the command follows only if CMD55 was answered |
| MmcInit.Identify | mmc_lib/mmc_api.c:358-384 | succeeds exactly if all commands but CMD8 are answered, and then has sent exactly 0 55 55 0 8 55 41, with their arguments and the responses waited for |
| MmcInit.AwaitPowerUp | mmc_lib/mmc_api.c:386-393 | polls until the first power-up or 65536 times; failure exactly when power-up comes with the last poll; exhausted polls count as success |
| MmcInit.OcrFields | mmc_lib/mmc_api.c:391-394 | power-up is bit 31 and high capacity bit 30 of the answer |
| MmcInit.Publish | mmc_lib/mmc_api.c:394-423 | succeeds exactly if 2 3 9 are answered, with the long response for 2 and 9; the relative address is the upper half of the answer to CMD3 and stands in the upper half of the argument of CMD9; the block length is two to the power of a field of the card-specific data |
| MmcInit.RcaField | mmc_lib/include/mmc_api.h:123 | the relative address is what stands above the sixteen status bits |
| MmcInit.CsdBlockLength | mmc_lib/include/mmc_api.h:103-114 | the block length doubles with each unit of bits 16 to 19 of the third word, and is 512 for nine |
| MmcInit.SelectCard | mmc_lib/mmc_api.c:433-444 | commands 7 and 55 carry the relative address; the busy phase of CMD7 is in flight while CMD55 is |
| MmcInit.Select | mmc_lib/mmc_api.c:424-444 | CMD16 goes out exactly to cards that are not high capacity; success exactly if all commands are answered; nothing but xferCompFlag is left over exactly if the busy phase of CMD7 ended well before CMD55 was answered |
| MmcInit.FetchScr | mmc_lib/mmc_api.c:445-453 | whatever the busy phase of CMD7 does meanwhile and however late the DMA completion: the exact value returned, and the register is in memory exactly if the data phase succeeds and its completion falls within the wait; nothing else changes |
| MmcInit.ReadScr | mmc_lib/mmc_api.c:445-461 | version and bus width come from the configuration register the card sent by DMA, seen through the cache, if it has arrived, and from what the memory held before otherwise |
| MmcInit.SetUpCard | mmc_lib/mmc_api.c:394-461 | after power-up: always returns; the exact success condition, the rest of the trace with the published relative address, and the source of version and width |
| MmcInit.CardInit | mmc_lib/mmc_api.c:358-464 | for every behaviour of the hardware: always returns, succeeds exactly if InitSucceeds says so, from the answers and delays alone; then it has sent the full trace of the identification flow (SD Physical Layer Simplified Specification, section 4.2), with the responses waited for, and commands 9, 7, 55 and 51 carrying the upper half of the answer to CMD3, has left the card's blocks alone, and shows the card's version and width exactly if its configuration register has arrived |
| MmcInit.PromptCard | mmc_lib/mmc_api.c:358-464 | a card of standard capacity on which every command sent and everything then known of the card is spelled out |
| MmcInit.PromptTrace | mmc_lib/mmc_api.c:358-464 | the sixteen commands of that run |
| MmcInit.BusyOverDecides | mmc_lib/mmc_api.c:433-453 | with the busy phase of CMD7 over in time and timely completions, success is that of command and data phase and the register has arrived |
| MmcInit.AnsweringCardSucceeds | mmc_lib/mmc_api.c:358-464 | a card that answers every command, or all but CMD8, and whose phases end well and in time is initialised, with its register arrived |
| MmcInit.SuccessNeedsAll | mmc_lib/mmc_api.c:358-464 | success needs an answer to every command of the trace but CMD8 and the polls |
| MmcInit.AllAnswered | mmc_lib/mmc_api.c:358-464 | then every such command that the trace shows has been answered |
| MmcInit.StaleRegister | mmc_lib/mmc_api.c:433-461 | an input on which initialisation reports success although the data phase fails, with version and width from stale memory |
| MmcInit.WriteThenRead | mmc_lib/mmc_api.c:474-539 | read after write through the two driver calls, for block- and byte-addressed cards, with the exact conditions under which both calls succeed |
| MmcInit.LongTransfer | mmc_lib/mmc_api.c:474-539 | for every count above 65535: both calls report success and the buffers differ, or, for multiples of 65536, the write fails |
| MmcProtocol.WaitKeepsInv | mmc_lib/mmc_api.c:71-112 | one access of a wait loop keeps the invariant that it consumes its own phase's report, whole, and succeeds only on a clean completion |
| MmcProtocol.StepKeepsCmd | mmc_lib/mmc_api.c:71-84 | every step of every party keeps the invariant of the command side |
| MmcProtocol.StepKeepsXfer | mmc_lib/mmc_api.c:91-112 | every step keeps the invariant of a transfer that no stray report can end |
| MmcProtocol.StepKeepsDma | mmc_lib/mmc_api.c:104-111 | every step keeps the callback flag and the DMA enable in step with the transfer |
| MmcProtocol.EnterIsrKeepsXfer | mmc_lib/mmc_api.c:722-726 | the interrupt routine may take over the status bits at any point without disturbing a wait |
| MmcProtocol.LeaveIsrKeepsXfer | mmc_lib/mmc_api.c:727-733 | the same for the moment it raises the flags |
| MmcProtocol.RaiseCmdKeepsXfer | mmc_lib/mmc_api.c:222-226 | the controller may end a command phase at any point while it runs, and starts data and busy phases by the response asked for |
| MmcProtocol.InvAlways | mmc_lib/mmc_api.c:71-228 | the invariant holds after every run of the interleaved system in which command reports come whole |
| MmcProtocol.NextPhaseStartsClean | mmc_lib/mmc_api.c:71-112 | whenever a command is written no command flag or status bit is left over, and on the transfer side none but stray reports |
| MmcProtocol.NoSelectionNoStray | mmc_lib/mmc_api.c:169-228 | in runs without a card selection there never is a stray report, so nothing at all is left over |
| MmcProtocol.AskedFor | mmc_lib/mmc_api.c:474-501 | the operation under way is the one asked for when the driver was idle, and becomes the stop command only when a successful transfer of several blocks has returned |
| MmcProtocol.StopFollows | mmc_lib/mmc_api.c:494-498 | after a data transfer has returned the stop command is next exactly if it was for several blocks and a success; otherwise the operation is over |
| MmcProtocol.StopOnlyAfterBlocks | mmc_lib/mmc_api.c:494-498 | in every run a stop command belongs to a transfer of several blocks |
| MmcProtocol.PollExhausts | mmc_lib/mmc_api.c:106-109 | a poll that never finds the callback makes one round more than its counter says, wraps the counter, and leaves the status as the phase ended |
| MmcProtocol.CommandWaitIsTruthful | mmc_lib/mmc_api.c:71-84 | in every run a command wait returns 1 exactly for the clean completion of its own command |
| MmcProtocol.TransferWaitIsTruthful | mmc_lib/mmc_api.c:91-112 | in every run a transfer wait that was not started amid stray reports returns 1 exactly for the clean completion of its own phase, save for the last-poll quirk |
| MmcProtocol.CallbackIsOwn | mmc_lib/mmc_api.c:104-109 | as long as no DMA transfer was given up unfinished, a data phase that did not exhaust its poll ends with its own DMA transfer finished |
| MmcLate.NextPollIsOwn | mmc_lib/mmc_api.c:104-109 | in every continuation the next poll that finds a callback finds that of its own transfer, if and only if, when the data command is written, the flag is clear and no transfer that was given up is still to report |
| MmcProtocol.DmaEnableMatchesKind | mmc_lib/mmc_api.c:110-111 | until a data command fails, DMA is enabled exactly for commands that carry data |
| MmcProtocol.DataWaitIsOwn | mmc_lib/mmc_api.c:95-103 | the wait of a data command reports its own phase in every continuation if and only if no stray report is outstanding when the command is written |
| MmcProtocol.ClearsInTime | mmc_lib/mmc_api.c:172 | the two clears before a data command make the way clear in every continuation if and only if, at the first of them, every stray report has been delivered and none was a timeout |
| MmcProtocol.SelectionLeavesFlag | mmc_lib/mmc_api.c:433-437 | a run from the initial state in which the end of CMD7's busy phase has set xferCompFlag when the next command is written |
| MmcProtocol.SelectionMisleads | mmc_lib/mmc_api.c:433-453 | a run from the initial state in which it makes the wait for a data phase return 1 while that phase is running |
| MmcProtocol.StopReturns | mmc_lib/mmc_api.c:334-335 | the wait of the stop command can return if and only if CMD12 has been answered cleanly; otherwise every continuation stays in the loop of line 95 |
| MmcLate.LateCompletionHitsNextCommand | mmc_lib/mmc_api.c:71-84 | a run from the initial state in which the second part of a command's report makes the next command's wait return 1 while that command runs |
| MmcLate.LateIsHarmless | mmc_lib/mmc_api.c:71-84 | after a second part of a report, for commands of every kind, every later command wait in every continuation is truthful if and only if the first part was still in the status register, or an unanswered CMD12 is about to leave the driver waiting for ever |
| MmcLate.AliveAlways | mmc_lib/mmc_api.c:91-112 | in every run a transfer wait that still polls has its report to come, unless it waits for a CMD12 that was not answered |
| MmcLate.DoomedIsReached | mmc_lib/mmc_api.c:327-337 | a run from the initial state to such a CMD12 |
| EdmaQueues.AssignSetsField | drivers_C/include/dma.h:36-45 | one read-modify-write sets its own three bits and leaves the other 29 alone |
| EdmaQueues.PointUpdate | drivers_C/dma.c:199-206 | rewriting one nibble of one word is a point update of the 64-channel queue map |
| EdmaQueues.QdmaPointUpdate | drivers_C/dma.c:61-65 | the same for the eight QDMA channels when the field is cleared first |
| EdmaQueues.QdmaRemap | drivers_C/dma.c:207-211 | remapping a QDMA channel works if and only if the new number has every bit the old one had |
| EdmaQueues.QueueBits | drivers_C/include/dma.h:36-45 | the queue of a channel is the low three bits of its nibble, eight channels to a word |
| EdmaQueues.Registers.MapChToEvtQ | drivers_C/dma.c:199-206 | the channel is on the queue asked for (modulo 8), the other 63 where they were |
| EdmaQueues.Registers.Init | drivers_C/dma.c:34-66 | the map register of every DMA channel names the parameter set of the same number, every DMA and QDMA channel is on the queue asked for, and all channels are accessible |
| EdmaContext.OrWithin | drivers_C/dma.c:1292-1299 | writing a saved enable register through its set register reproduces it if and only if no other bit was set |
| EdmaContext.RestoreUndoesSave | drivers_C/dma.c:1276-1308 | a restored controller equals the saved one if and only if it had no enables the saved one lacked |
| EdmaContext.TriggersStale | drivers_C/dma.c:1288-1307 | the transfers started by restoring the event set registers are the saved ones if and only if their parameter sets were already in place |
| EdmaContext.TriggersAre | drivers_C/dma.c:1288-1290 | exactly the channels of the set bits make a request, each with its own parameter set |
| EdmaContext.PaEntryBits | drivers_C/dma.c:51 | the parameter set of a map register is the number in its bits 5 to 12 |
| EdmaContext.Controller.WriteEsr | drivers_C/dma.c:1288-1290 | one transfer request for each set bit, with the parameter set of the moment |
| EdmaContext.Controller.GetPaRam | drivers_C/dma.c:650-658 | reads the whole parameter set |
| EdmaContext.Controller.SetPaRam | drivers_C/dma.c:704-719 | replaces one parameter set and nothing else |
| EdmaContext.Controller.ContextSave | drivers_C/dma.c:1232-1265 | the context holds the maps, the access, event set and enable registers and all 256 parameter sets |
| EdmaContext.Controller.ContextRestore | drivers_C/dma.c:1276-1308 | the whole register state afterwards, enables only ever gaining bits, and the transfers started meanwhile with the old parameter sets |
| EdmaContext.SaveRestore | drivers_C/dma.c:1232-1308 | save on one controller and restore onto another reproduces all registers if and only if the second had no foreign enables, and starts the saved transfers if and only if their parameter sets were there |
| EdmaIsr.SetBits | mmc_lib/mmc_api.c:578-593 | the scan meets set bits only, in increasing order |
| EdmaIsr.SetBitsComplete | mmc_lib/mmc_api.c:578-593 | the scan meets every set bit |
| EdmaIsr.CalledOnce | mmc_lib/mmc_api.c:578-593 | the callbacks of a pass are in strictly increasing order and are exactly those of the set bits with a registered callback |
| EdmaIsr.Controller.ClrIntr | drivers_C/dma.c:628-634 | clears one pending bit of the low or the high word; bits that arrive stay |
| EdmaIsr.Controller.ScanPending | mmc_lib/mmc_api.c:578-593 | each bit of the snapshot is cleared by an access of its own and its callback runs once, in order; a bit is pending afterwards exactly if it arrived after that access, or was outside the snapshot and pending or arrived |
| EdmaIsr.Controller.OnePass | mmc_lib/mmc_api.c:576-595 | the snapshot is the pending register with what has just arrived, and exactly it is served |
| EdmaIsr.Controller.CompletionIsr | mmc_lib/mmc_api.c:570-598 | whatever arrives, at most ten passes, going on exactly as long as they find something; each finds exactly what is outstanding and calls back once for it; the register holds exactly what is outstanding afterwards |
| EdmaIsr.Controller.EntryNotLost | mmc_lib/mmc_api.c:570-598 | what was pending on entry is dispatched or still pending |
| EdmaIsr.Controller.ArrivalNotLost | mmc_lib/mmc_api.c:570-598 | what arrives during the run is dispatched by a pass that clears it no earlier, or still pending |
| EdmaIsr.Controller.LeftIsLate | mmc_lib/mmc_api.c:570-598 | what is left pending arrived after the last snapshot, and the passes were used up |
| EdmaIsr.Controller.QuietRun | mmc_lib/mmc_api.c:570-598 | if nothing arrives while the routine runs, its first pass finds everything and its second and last nothing |
| Cpsw.Ale.EntrySet | drivers_C/eth_hwif.c:608-621 | three window words and one control write replace exactly one table entry |
| Cpsw.Ale.EntryGet | drivers_C/eth_hwif.c:631-642 | returns the entry and leaves the table alone |
| Cpsw.ContextSave | drivers_C/eth_hwif.c:1420-1442 | the saved words spell out all 1024 entries, and descriptor RAM and control words are saved |
| Cpsw.ContextRestore | drivers_C/eth_hwif.c:1483-1503 | the table spells out the saved words even if the control word written first clears it |
| Cpsw.SpellsSame | drivers_C/eth_hwif.c:1437-1503 | saved words determine the table |
| Cpsw.SaveRestore | drivers_C/eth_hwif.c:1420-1503 | whatever powers up again ends with the table, control words and descriptor RAM that were saved |
| Mmu.RegionMap | drivers_C/mmu.c:36-55 | the descending loop maps every section of the region onto itself with its attributes and leaves every other entry alone |
| Mmu.FlatTranslates | drivers_C/mmu.c:44-54 | an address whose entry is the flat section entry translates to itself with the region's attributes (ARMv7-A short descriptors, section B3.5.1) |
| Mmu.MapAllAt | drivers_C/mmu.c:92-95 | after mapping disjoint regions each covered section has its own region's entry and every other its old one |
| Mmu.OrderDoesNotMatter | drivers_C/mmu.c:92-95 | disjoint regions give the same table in any order |
| Mmu.AttributeWords | drivers_C/mmu.c:65-84 | the attribute macros of the four regions amount to the two constants used |
| Mmu.AttributesMean | drivers_C/mmu.c:65-84 | the one constant is cacheable and executable memory, the other uncached and never executable, both with user access |
| Mmu.RegionsAreApart | drivers_C/mmu.c:12-20 | the four regions are disjoint, fit the table and carry section attributes |
| Mmu.Translations | drivers_C/mmu.c:90-95 | in the resulting table every address of a region translates to itself and every other address faults |
| Mmu.Init | drivers_C/mmu.c:62-98 | whatever the table held before, including entry 0 which the clearing loop misses: the first megabyte, the megabyte at 0x40300000 and the 512 from 0x80000000 on translate to themselves as normal memory, the 960 from 0x44000000 on as devices, and every other address faults |
| MmcClock.FindDivisor | mmc_lib/mmc_hwif.c:275-286 | a divisor is found if and only if freq_in < 1023 (freq_out + 1); it is in 2..1023, overshoots by less than 1 Hz, is at most the rounded-up quotient, and the loop takes at most one step |
| MmcClock.NextDivisorFits | mmc_lib/mmc_hwif.c:282-286 | if the first divisor is too small, the next one fits |
| MmcClock.NotAMultiple | mmc_lib/mmc_hwif.c:282-286 | the loop steps only if the quotient is not exact, so the step rounds it up |
| MmcClock.SysCtl.IsIntClockStable | mmc_lib/mmc_hwif.c:194-202 | returns 1 exactly if one of the first retry + 1 reads is stable, and stops reading at that one |
| MmcClock.SysCtl.SetBusFreq | mmc_lib/mmc_hwif.c:268-293 | without bypass: succeeds if and only if the frequency is reachable and the clock is found stable twice; then both clocks are on with a divisor that fits; a failure never switches the card clock, an unreachable frequency not even the divisor; with bypass only the internal clock is started |
| Libc.UIDivMod | drivers_C/libc.c:150-169 | repeated subtraction terminates with quotient and remainder |
| Libc.IDivMod | drivers_C/libc.c:129-149 | numerator = quotient * denominator + remainder wherever the loop ends; the quotient is 0 unless the numerator is non-negative and the denominator positive |
| Libc.SignedDivisionCorrect | drivers_C/libc.c:129-149 | the result is C's truncating division if and only if the denominator is positive and the numerator above minus the denominator |
| Libc.TruncMeans | drivers_C/libc.c:129-149 | C's division as the reference: the remainder is smaller than the denominator and takes the sign of the numerator |
| Libc.HoldsOne | drivers_C/libc.c:117-121 | memory holds at most one C string at an address |
| Libc.CStringHeld | drivers_C/libc.c:117-121 | reading memory up to the NUL gives the string it holds |
| Libc.LessMeans | drivers_C/libc.c:68-74 | the order behind the comparisons: a proper prefix comes first, otherwise the first character that differs decides |
| Libc.LessTotal | drivers_C/libc.c:68-74 | the order of strings is total |
| Libc.LessAsymmetric | drivers_C/libc.c:68-74 | and asymmetric |
| Libc.LessTransitive | drivers_C/libc.c:68-74 | and transitive |
| Libc.StrCmp | drivers_C/libc.c:68-74 | the sign of the result is the lexicographic order, zero exactly for equal strings |
| Libc.StrNCmp | drivers_C/libc.c:78-87 | the same for the strings cut at the count |
| Libc.CountBeyondShorter | drivers_C/libc.c:78-87 | strncmp orders like strcmp as soon as the count exceeds the shorter length |
| Libc.MemCmp | drivers_C/libc.c:13-20 | the lexicographic order of the two stretches of memory |
| Libc.MemCmpIsStrNCmp | drivers_C/libc.c:13-20 | on stretches without a NUL memcmp compares what strncmp compares |
| Libc.StrLen | drivers_C/libc.c:117-121 | the length of the string |
| Libc.StrCpy | drivers_C/libc.c:92-100 | the whole target afterwards, from any place in it: string, NUL, the rest as before |
| Libc.StrCat | drivers_C/libc.c:49-63 | the whole target afterwards: the second string and a NUL behind the first, the rest as before |
| Libc.StrNCpy | drivers_C/libc.c:105-112 | copies count bytes whatever they are, the rest as before; all of them were inside the source exactly if it has that many left |
| Printf.FillDigits | drivers_C/libc.c:212-220 | the digits stand at the end of the 16-byte buffer, within it, for every 32-bit number |
| Printf.PrintDecimal | drivers_C/libc.c:212-223 | sends exactly those characters, at most ten |
| Printf.ValueOfDigits | drivers_C/libc.c:216-219 | the digits denote the number |
| Printf.NoLeadingZero | drivers_C/libc.c:216-219 | the first digit is zero for zero only |
| Printf.DecimalRoundTrip | drivers_C/libc.c:212-223 | the text consists of digits and parses back to the number if and only if the number is not negative; no leading zero; for a negative number every character is the digit reflected at the character 0 |
| Printf.PrintHex | drivers_C/libc.c:198-211 | eight characters out of 0123456789ABCDEF, each the one at its nibble's position, most significant first |
| Printf.HexRoundTrip | drivers_C/libc.c:198-211 | a parser that accepts those sixteen characters only reads the word back |
| Tokens.Split | drivers_C/con_uif.c:671-694 | the words of a line are non-empty and free of spaces |
| Tokens.SplitSnoc | drivers_C/con_uif.c:671-694 | what one more character does to the words of a line |
| Tokens.SplitOfSpaced | drivers_C/con_uif.c:671-694 | splitting undoes joining words with spaces |
| Tokens.StartsOfWords | drivers_C/con_uif.c:682-687 | there is one word start for each word of the line |
| Tokens.StartsPrefix | drivers_C/con_uif.c:682-690 | the word starts of a prefix are a prefix of those of the line |
| Tokens.NinthWord | drivers_C/con_uif.c:688-691 | the scan gives up at the ninth word, exactly in lines of more than eight |
| Tokens.WordOver | drivers_C/con_uif.c:672-691 | a word that starts before the ninth is over by the time the scan gives up |
| Tokens.SecondIsPositive | drivers_C/con_uif.c:682-687 | every argument but the first stands at index 2 or later |
| Tokens.TooManyWords | drivers_C/con_uif.c:688-691 | a line has the outcome for too many arguments exactly if it has more than eight words |
| Tokens.UnknownCommand | drivers_C/con_uif.c:694-708 | a line of up to eight words is no command exactly if it has no word or the first is not in the table |
| Tokens.FirstIndex | drivers_C/con_uif.c:696-706 | the first table entry with the name, if there is one |
| Console.AlwaysSound | drivers_C/con_uif.c:615-646 | after any keystrokes the line is at most 255 printable characters |
| Console.Keys | drivers_C/con_uif.c:615-646 | what each key code does to line and log |
| Console.BackspaceUndoes | drivers_C/con_uif.c:618-622 | backspace undoes a character if and only if the line had fewer than 255 |
| Console.TypedText | drivers_C/con_uif.c:639-643 | of n characters typed onto an empty line the last n mod 256 remain |
| Console.TypedLineRuns | drivers_C/con_uif.c:624-630 | a line of fewer than 256 characters is interpreted exactly as typed |
| Console.TypedCommandRuns | drivers_C/con_uif.c:590-709 | typing up to eight words and return calls the first command of that name with exactly those words |
| Console.ArgsAtSpace | drivers_C/con_uif.c:672-675 | replacing a space by NUL ends the current word and keeps all pointers right |
| Console.ArgsAtStart | drivers_C/con_uif.c:682-687 | a pointer to the current character starts the next word |
| Console.ArgsAtExtend | drivers_C/con_uif.c:676-680 | a further character lengthens the last word in place |
| Console.WordsAtStarts | drivers_C/con_uif.c:671-694 | the words stand where the recorded starts say, at every point of the scan |
| Console.AllHeld | drivers_C/con_uif.c:671-694 | after the scan the buffer holds word i of the original line as a C string at argument i |
| Console.Terminal.Scan | drivers_C/con_uif.c:662-694 | argument count and argument strings are the words of the original line; failure exactly for more than eight; the whole buffer afterwards, and argv[1], which keeps its value unless the line has a second word |
| Console.Terminal.Lookup | drivers_C/con_uif.c:696-706 | the first table entry named like argument 0, or the error code |
| Console.Terminal.CmdLineParse | drivers_C/con_uif.c:662-709 | up to the call: -2 exactly for more than eight words, -1 exactly for no word or an unknown first word, otherwise the entry and the strings the command is handed; buffer and argv[1] afterwards |
| Console.Terminal.Edit | drivers_C/con_uif.c:615-646 | a keystroke that does not submit the line does to buffer and index what it does to the editor, and to no other byte |
| Paths.CdKeepsProper | drivers_C/con_uif.c:336-398 | the working directory stays an absolute path that fits its buffer if and only if the step is not .. at the root |
| Paths.UpRendered | drivers_C/con_uif.c:353-365 | .. takes the last name off |
| Paths.CdRefines | drivers_C/con_uif.c:336-398 | cd on strings does what it should on lists of names; a path is too long under exactly the stated condition |
| Paths.CdRunRefines | drivers_C/con_uif.c:336-398 | over every run of cd commands the string names the directory that the accepted steps lead to |
| Paths.CdRoundTrip | drivers_C/con_uif.c:353-382 | cd name and cd .. lead back to the same string from every canonical directory |
| Paths.PrefixByNames | drivers_C/con_uif.c:126-130 | a textual prefix that ends at a separator is a prefix by names, and conversely |
| Paths.RmGuard | drivers_C/con_uif.c:114-144 | rm refuses an absolute path if and only if it is the working directory or an ancestor, the root excepted unless it is the working directory |
| Paths.RmRelative | drivers_C/con_uif.c:146-168 | a plain name is never refused; it leads to the working directory or an ancestor if and only if it is . or .. |
| Paths.RelativeLeadsDown | drivers_C/con_uif.c:366-382 | for cd and rm alike, an argument of several names joined by slashes leads down by all of them, if the result fits its buffer |
| Paths.Shell.CopyArg | drivers_C/con_uif.c:350 | the argument arrives whatever lies behind its memory; that memory suffices exactly if 511 bytes are left |
| Paths.Shell.CdPath | drivers_C/con_uif.c:336-383 | the scratch buffer holds the specified path, through strcpy, strncpy, strcmp and strcat on 512-byte buffers |
| Paths.Shell.CmdCd | drivers_C/con_uif.c:336-398 | the file system is asked for exactly that path, and the working directory changes exactly if it says yes; the copy stays inside the argument's memory exactly if the path is relative, too long or has 511 bytes left; the search for a separator leaves the scratch buffer exactly for .. at the empty path |
| Paths.Shell.Guards | drivers_C/con_uif.c:124-134 | strncmp plus the boundary test decide whether the argument is a prefix ending at a separator |
| Paths.Shell.CmdRm | drivers_C/con_uif.c:109-170 | the file system is asked to delete exactly the specified path, or nothing |
| Commands.LineAloneDecides | drivers_C/con_uif.c:663-700 | the effect of a line depends on that line alone, for every world, if and only if the line is not a file command of one word |
| Commands.Characters | drivers_C/con_uif.c:350-375 | space, slash and the dot names are the characters of that name |
| Commands.CdMeans | drivers_C/con_uif.c:571-586 | in the real command table the line cd X calls the seventh entry with X |
| Commands.RmMeans | drivers_C/con_uif.c:571-586 | in the real command table the line rm X calls the tenth entry with X |
| Commands.ChdirIsCd | drivers_C/con_uif.c:575-577 | chdir X and cd X have the same effect, and no entry but these and rm changes the directory or asks for anything |
| Commands.CatMeans | drivers_C/con_uif.c:571-586 | in the real command table the line cat X calls the ninth entry with X |
| Commands.RmAlone | drivers_C/con_uif.c:571-586 | the line rm calls the tenth entry without an argument, and is a file command of one word |
| Commands.CdLinesRoundTrip | drivers_C/con_uif.c:336-398 | the line cd name and the line cd .. lead back from every canonical directory |
| Commands.RmLineGuarded | drivers_C/con_uif.c:109-170 | the line rm path asks for nothing if and only if the path is the working directory or an ancestor, the root excepted unless it is the working directory; otherwise for exactly that path |
| Commands.AbsolutePathIsCopied | drivers_C/con_uif.c:350 | a concrete line whose argument is read past the command buffer |
| Session.PressSteady | drivers_C/con_uif.c:615-646 | one keystroke keeps the invariant of the session and does to line and log what it does to the editor |
| Session.RunEdits | drivers_C/con_uif.c:615-646 | the same for every run of keystrokes |
| Session.UpperHalfKept | drivers_C/con_uif.c:615-646 | no run of keystrokes writes a byte from 256 on |
| Session.LinesDecide | drivers_C/con_uif.c:590-709 | from the start, over every run of keystrokes: requests to the file system and working directory are those of the lines the editor submitted, unless one was a file command of one word |
| Session.SecondWordStays | drivers_C/con_uif.c:663-687 | a line of two words or more, also one with too many, leaves argv[1] at its second word and the word in place |
| Session.TwoLines | drivers_C/con_uif.c:109-114 | typed after such a line, a line of one word works on that second word, or on the part of itself that has overwritten it |
| Session.NullArgument | drivers_C/con_uif.c:663 | before the first line of two words such a command works on the string at address 0 |
| Session.CatThenRm | drivers_C/con_uif.c:109-170 | the keystrokes cat X, return, rm, return ask for X to be deleted, for every X that fits the line |
| Session.ArgumentHeld | drivers_C/con_uif.c:663-687 | after any scan argv[1] is null or points at a C string in the command buffer, the second word if there is one |
| Session.Session.Call | drivers_C/con_uif.c:699-702 | request, return code and working directory are those of cd or rm on the string at argv[1], be it in the command buffer or at address 0 |
| Session.Session.CmdLineParse | drivers_C/con_uif.c:662-709 | for every line: -2 for more than eight words and -1 for no or an unknown command, without effect; otherwise return code, working directory and request are those of its meaning and of what argv[1] points to; a path that is copied out of the command buffer is always read past its end |
| Session.Session.CmdLineProcess | drivers_C/con_uif.c:590-608 | an empty line does nothing, any other has its outcome and its effect; the line is emptied |
| Session.Session.CharCollect | drivers_C/con_uif.c:615-646 | one keystroke does to buffer, index, argv[1], working directory and log what it does to the session on values |
| Session.Session.Run | drivers_C/con_uif.c:615-646 | the same for every sequence of keystrokes, from which no byte from 256 on is ever written |

## Left out

- lwIP, FatFs, the web server, the UDP applications and the assembly files other than the command write in `drivers/mmc.s`: not modelled.
- Reads and writes of timing, clock and pin registers, and the wait-for-reset loops `MMCSoftReset`, `MMCLinesReset`, `MMCBusPower`: no property beyond the wrapped poll counter already shown twice.
- The card insertion and removal branches of `mmc0_isr`, and `errFlag`.
- `MMCBusWidthSet`, `MMCTranSpeedSet`, and the fields of the card-specific data other than the block length.
- MmcDriver.Mmc.Mmc0Isr: reading the status and writing it back is one step; a bit raised between the two accesses is not modelled.
- MmcDriver.Mmc.XferSetup: block lengths of 0x1000 and more, whose upper bits would spill into the rest of the register; the callers pass 512 and 8.
- MmcDriver.Mmc.WriteCmdSend: assumes Timely callbacks and starts with nothing in flight; in the model a data phase that fails moves nothing, so a card that has stored part of a failed write is not modelled. Each phase is reported in one interrupt; MmcLate.LateCompletionHitsNextCommand shows that this is needed.
- MmcDriver.Mmc.ReadCmdSend: as for writing; bytes next to the buffer that share a cache line with it are not affected in the model.
- MmcInit.WriteThenRead: read after write is stated for at most 65535 blocks and addresses that do not wrap; MmcSequence.LongTransferLosesData and MmcSequence.AddressesBlock show why.
- MmcProtocol.InvAlways: interrupt routines run to completion and do not nest, and each command phase raises its bits at once.
- MmcProtocol.CallbackIsOwn: stated for runs in which no earlier DMA transfer was left behind unfinished; MmcLate.NextPollIsOwn covers the others.
- MmcProtocol.DmaEnableMatchesKind: stated for runs in which no data command failed, because the code leaves `dmaEnable` set then.
- EdmaContext.SaveRestore: the 128-set revision of the controller, and what a started transfer does to its parameter set before that is restored.
- `DMAUnmapChToEvtQ`, `DMADisableChInShadowReg`, `DMADisableDmaEvt`, `DMACCErrorISR`, `DMADeinit`: would add easy members or masks that do not do what their comments say.
- Cpsw.SaveRestore: the plain registers saved and restored one by one, and the idle command to the DMA engine.
- Mmu.RegionMap: supersections and large page types (the page type keeps all twelve upper address bits), and the coprocessor calls around `mmu_init`.
- Printf.PrintDecimal: the scanning of the format string, `%c` and `%s`.
- Libc.UIDivMod: division by zero, for which the C loop does not end; the quotient and remainder stay below 2^32 whenever the inputs do, so wrap-around plays no part.
- Libc.IDivMod: a non-positive denominator not above the numerator, for which the loop does not end before the integer overflows.
- Libc.StrCpy: a target that begins inside the source, which overwrites the NUL before it is read; the same for strcat and strncpy.
- Session.Session.CmdLineParse: the effect of commands other than cd and rm, whose return code is a function of their words only; the string at address 0 is a parameter, and a fault on reading there is not modelled.
- Session.Session.CharCollect: the echo sent to the terminal.
- Paths.Shell.CmdCd: the memory below the scratch buffer, which .. at the empty path searches and in which it writes a NUL.
- Paths.Shell.CmdRm: which directories may be deleted is up to the file system; names such as `.` inside an argument are passed on as they are.
- `Cmd_ls`, `Cmd_mkdir`, `Cmd_cat`, `Cmd_pwd`, `Cmd_help`: printing loops over the file system, and path handling that repeats `Cmd_cd`.
