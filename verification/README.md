# Device layer of the Nano emulator, modelled and proved

The emulator runs two ARM cores in slices of instructions. Between slices the bus ticks its
devices: buttons, timers, power manager, audio output, DMA engine, serial ports, core control,
disk and interrupt controller. This project models that device layer and the loop that drives it,
and proves what holds over every run.

Each device comes in two forms. A *specification* gives its state as a value and each step as a
function (`AtaSpec`, `Timer`, `PmuSpec`, `I2sSpec`, `DmaSpec`, `LcdSpec`, `Machine`, ...). Where the
emulator changes state in place, a *class* is proved against those functions method by method
(`AtaDevice`, `I2sDevice`, `DmaDevice`, `LcdDevice`, `PmuDevice`, `Timer.Device`, `Tlb.Controller`,
`MmioProfile.Profile`, `InputScript.Player`). `BusDevice.Bus` owns these devices, with the memory and
the interrupt lines they share, and its tick and its jump are proved to be those of `Machine` and
`FastForward`. The buttons, the UARTs and the core control are small records it holds. The scheduling
loop, `MainLoop.Schedule`, runs over the machine as a value and the script in place.

| files | content |
|---|---|
| `Words`, `Intc`, `Ram`, `Peripherals` | fixed-width words, interrupt lines, guest memory, buttons, UARTs, core control |
| `AtaSpec`, `AtaInvariant`, `AtaTransfer`, `AtaProgress`, `AtaDevice` | the disk: reachable states, what transfers move, how commands end |
| `Timer`, `Calendar`, `PmuSpec`, `PmuTheorems`, `PmuDevice` | timed arithmetic: batch timers, BCD calendar, power manager |
| `I2sSpec`, `I2sTheorems`, `I2sDevice`, `DmaSpec`, `DmaDevice`, `AudioDma`, `PcmWindow` | from memory through the FIFO to the samples served to a browser |
| `LcdSpec`, `LcdTheorems`, `LcdDevice`, `LcdDma` | from memory to the panel |
| `Memmap`, `Tlb`, `MmioProfile` | lookup structures |
| `Machine`, `MachineInv`, `BusDevice`, `FastForward`, `ClockRate` | the whole device layer, the idle fast-forward, and where a jump is not what its ticks are |
| `InputScript`, `MainLoop`, `LoopRuns` | scripted input and the scheduling loop over whole runs |

Registers and counters are natural numbers with the 32-bit wrap-around, truncation and bit tests
written out; only the interrupt words and the mapping entries are bit vectors.

What the proofs found about the code:

- `n1g_bus_advance` leaves `timer.cfg_tick_phase` alone (`src/bus.c:400-404` against
  `src/dev_timer.c:71-73`). A jump is equal to the ticks it replaces if and only if the time jumped
  over is a multiple of `timer_divider` (`AdvanceExact`). The built-in default, one microsecond a tick
  and a divider of 20, is an instance where it is not (`PhaseDiffers`). Over whole runs the loops with
  and without jumps agree when a tick is a whole number of timer steps (`LoopsAgree`), and otherwise
  some budget makes them part (`LoopsPart`). In every configuration, and whatever the clients change,
  both count the same device ticks for the same budget, play every scripted event on the same device
  tick (`PlayedOnTick`) and serve the clients on the same ones (`ServedOnTime`).
- The limit on jumps presumes that the clock's last second is not ahead of the clock. It never is
  at a constant tick length, but a browser may change the tick length between 1 and 4096 microseconds
  (`src/web_frontend.c:877-888`). `SecondsExact` says exactly when a jump then still counts the seconds
  of its ticks, and `AdvanceWhenSeen` that the whole state comes out the same when the next tick shows
  the second last seen. A machine that has slept for five seconds at 4096, until clients are served,
  and goes on at 2048 loses a second (`SlowedLosesSecond`).
- A jump is charged whole slices, so a budget that is not a multiple of the slice can end with a
  larger `scheduled_insns` than without jumps (`JumpCharges`), against `docs/performance.md:66-68`: of
  1000 instructions in slices of 512, a jump is charged 1024 (`Overcharged`).
- An LCD transfer of `4n + 1` bytes has one word too many and is counted as an overrun
  (`AcceptedEndsBlock`, `LateWord`).
- A client that asks for sound from an odd cursor is moved to the next frame without that halfword
  being counted as dropped (`DroppedExactly`).

## Model

| member | source | states |
|---|---|---|
| FastForward.AdvanceIsTicks | src/bus.c:361-405 | for every idle machine that meets the invariants and every k from 2 to the limit, the jump ends where k bus ticks end, except for the prescaler phase |
| FastForward.AdvanceExact | src/bus.c:395-405 | the two states are equal outright if and only if the time jumped over is a multiple of the timer divider |
| FastForward.SkippedTicks | src/bus.c:310-355 | each skipped tick only lets time pass, and the machine is still idle after it |
| FastForward.DmaStill | src/dev_dma.c:218-234 | a quiet engine with no request waiting does nothing on a tick, on either profile |
| FastForward.PmuStill | src/dev_i2c.c:548-599 | with no deadline reached, supervision quiet and the last second still shown, the power manager's tick is the identity |
| FastForward.WithinLimit | src/bus.c:361-393 | no deadline and no change of second lies strictly within the limit |
| ClockRate.PhaseDiffers | src/bus.c:395-404 | at the default configuration, a machine whose cores have put themselves to sleep, after the tick that ends their slice, for which a jump of two ticks leaves another phase than two ticks |
| ClockRate.SecondsExact | src/bus.c:381-391 | whatever the clock last saw, a jump within the limit counts as many seconds as its ticks if and only if the first tick shows the second last seen or no later one shows another |
| ClockRate.SecondsOfTicks | src/dev_i2c.c:594-602 | n ticks count one second for every tick that shows another second than was seen before it |
| ClockRate.AdvanceWhenSeen | src/bus.c:361-405 | whenever the next tick shows the second last seen, the jump ends where its ticks end, except for the prescaler phase, also after the length of a tick has been changed |
| ClockRate.SlowedLosesSecond | src/bus.c:381-391 | a machine that has slept 1280 ticks of 4096 microseconds, a tick on which clients are served, and then ticks every 2048: a jump of 250 ticks, before they are served again, counts another number of seconds than 250 ticks |
| BusDevice.Bus.BusTick | src/bus.c:310-321 | the devices ticked in place in the order of the bus, on the memory and interrupt lines they share, are the tick of the machine |
| BusDevice.Bus.BusAdvance | src/bus.c:395-405 | the jump on the devices in place is the jump of the machine, and counts the skipped ticks |
| FastForward.IdleAdvanceLimit | src/bus.c:361-393 | the loop over the deadlines and the clock computes the limit, which is at least one |
| MachineInv.RunInv | src/bus.c:243-321 | ticks, guest accesses, input and outside changes, at a constant tick length, keep the invariants: clock in order, disabled output at rest, nothing received, no waiting LCD request outside the Apple profile |
| MachineInv.PowerOnInv | src/bus.c:310-321 | the invariants hold at power-on |
| MachineInv.TryLcdServes | src/dev_dma.c:218-278 | outside the Apple profile a request is served at once and is no longer waiting; other channels and the output's clock are untouched |
| MainLoop.LoopsAgree | src/main.c:787-919 | when a tick is a whole number of timer steps, then for every program, script and budget, and for clients that may change the length of a tick as long as it stays one and the clock in order, the loop with jumps ends in the same machine, script, budget and outcome as the loop that takes every tick |
| MainLoop.JumpIsTicks | src/main.c:796-851 | in every configuration one jump comes to the same as that many turns of the loop, including script waits, budget, polls and the wake check, except for the prescaler phase; and to exactly the same if and only if the time jumped over is a whole number of timer steps |
| MainLoop.ClampAllows | src/main.c:796-819 | the clamps never pass a script event or a multiple-of-256 poll and never exceed the ticks of the budget |
| LoopRuns.LoopsPart | src/main.c:787-919 | for every tick length a client may set that is not a whole number of timer steps, a budget for which the two loops do not agree |
| LoopRuns.TurnsInStep | src/main.c:787-919 | after any number of turns of the loop, in every configuration and whatever the clients change: the budget has paid for exactly the device ticks that went by, and the script is where one script tick for each leaves it |
| LoopRuns.SlowIsNoJumps | src/main.c:793-796 | the loop without jumps is the loop with its jumps turned off, so what holds turn by turn holds for both |
| LoopRuns.FastTickCount | src/main.c:787-851 | a run that ends with its budget used up has delivered exactly ceil(budget / slice) device ticks, whatever the clients change |
| LoopRuns.SlowTickCount | src/main.c:852-904 | the same without jumps |
| LoopRuns.EventsOnTime | src/main.c:787-919 | at every turn an event of the script has been played if and only if the waits before it are fewer than the device ticks that went by |
| LoopRuns.PlayedOnTick | src/main.c:799-842 | the turn that plays an event is a single device tick, numbered one plus the waits before it, with jumps and without |
| LoopRuns.ServedOnTime | src/main.c:810-813 | after any number of turns the clients have been served on every 256th device tick that went by and on no other, with jumps and without |
| LoopRuns.JumpCharges | src/main.c:820-839 | a jump is charged exactly what its ticks would be if and only if the budget still covers it |
| LoopRuns.Overcharged | src/main.c:820-839 | 1000 instructions in slices of 512: the jump is charged 1024 |
| MainLoop.AdvanceTicks | src/main.c:793-819 | the clamping as it is done computes the length of the jump |
| MainLoop.Turn | src/main.c:788-918 | one turn of the loop, over the machine as a value and the script in place |
| MainLoop.Schedule | src/main.c:787-919 | the whole loop computes the run the theorems are about |
| InputScript.EventTime | src/input_script.c:75-139 | an event is played on the script tick numbered one plus all waits before it |
| InputScript.Player.Step | src/input_script.c:75-139 | the event loop over the cursor in place |
| InputScript.Player.SkipWait | src/input_script.c:141-147 | skipping part of a wait |
| MainLoop.ScriptWaits | src/input_script.c:75-81 | inside a wait a script tick and skipping one more tick are the same, whatever the machine |
| Cores.WaitLasts | src/dev_cpucon.c:14-88 | a counted wait halts a core for exactly the ticks it asks for |
| Intc.SilentSelectsNothing | src/dev_intc.c:34-57 | with no source pending or forced neither core is interrupted |
| AtaInvariant.ReachableStates | src/disk_ata.c:73-202 | in every reachable state at most one of the five phases is active, BSY is set iff one is, DRQ implies an open transfer inside its sector, and the IDE bit of both cores is set iff an interrupt is pending and not disabled |
| AtaInvariant.RunInv | src/disk_ata.c:607-857 | the invariant is kept by every tick and register access |
| AtaInvariant.BusyEndsOnTick | src/disk_ata.c:607-630 | a busy phase without SRST held ends on the next tick |
| AtaInvariant.ResetReachesSignature | src/disk_ata.c:577-614 | SRST, anything while it is held, release and one tick reach the one signature state with the medium untouched |
| AtaTransfer.PositionAndCountBalance | src/disk_ata.c:258-313 | while a command is open, position and remaining count change by the same bytes, so their sum stays fixed |
| AtaTransfer.ReadDeliversMedium | src/disk_ata.c:258-285 | a read by PIO or DMA in any chunking delivers the medium from its LBA on, in order and once each, changes nothing, and stays within request and medium |
| AtaTransfer.WriteStoresExactly | src/disk_ata.c:287-313 | a write by PIO or DMA in any chunking stores the bytes it took at its LBA and leaves every other byte unchanged |
| AtaTransfer.HowCommandsEnd | src/disk_ata.c:423-501 | success means every sector has moved; an error at the end of the medium means exactly the valid prefix has, with IDNF, the LBA equal to the capacity and the residual count |
| AtaTransfer.StartBeyondMedium | src/disk_ata.c:370-376 | a request starting beyond the medium ends after one tick in IDNF with nothing moved |
| AtaTransfer.WriteThenReadBack | src/disk_ata.c:258-313 | sectors written and read back, each by PIO or DMA in any chunking, come back the same |
| AtaProgress.PollingCompletes | src/disk_ata.c:607-630 | a guest that polls a PIO command moves everything that is on the medium and then sees it end |
| AtaProgress.ProgramMoves | src/disk_ata.c:423-452 | a DMA program moves its length plus four bytes, cut to what the command and the medium allow; with nothing left on the medium, or a buffer outside memory, it moves nothing and schedules IDNF or ABRT |
| AtaProgress.ProgramEnds | src/disk_ata.c:423-500 | the program that takes the last byte on the medium ends the command: with success when the request fits, in IDNF when it asks for more than there is |
| AtaProgress.AllMovedIsOver | src/disk_ata.c:481-500 | a DMA command that has moved its whole request, in any chunking, is over with success |
| AtaProgress.FailsOnTick | src/disk_ata.c:522-541 | a scheduled error is reported by the next tick, with its interrupt |
| AtaProgress.DmaChunkInRam | src/disk_ata.c:454-474 | a DMA chunk is in guest memory at its address, and the rest of memory is unchanged |
| AtaProgress.DataValueIsMoved | src/disk_ata.c:323-342 | what a data-port read returns is what moved, all ones for what did not |
| AtaProgress.IdentifyDelivers | src/disk_ata.c:354-360 | IDENTIFY delivers its 256 words, of which 60 and 61 are the capacity, and ends |
| AtaDevice.Device.ReadSectorWord | src/disk_ata.c:258-285 | one halfword from the image, with the sector bookkeeping |
| AtaDevice.Device.WriteSectorWord | src/disk_ata.c:287-313 | one halfword into the image, with the sector bookkeeping |
| AtaDevice.Device.CompleteDma | src/disk_ata.c:423-501 | a DMA chunk copied in place between image and guest memory |
| AtaDevice.Device.CompleteNondata | src/disk_ata.c:522-541 | the completion of a command without data |
| AtaDevice.Device.CompleteReset | src/disk_ata.c:592-605 | the completion of a soft reset |
| AtaDevice.Device.Command | src/disk_ata.c:803-855 | command dispatch |
| AtaDevice.Device.Tick | src/disk_ata.c:607-630 | the disk's tick |
| AtaDevice.Device.Read | src/disk_ata.c:667-720 | register reads, their values and side effects |
| AtaDevice.Device.Write | src/disk_ata.c:722-857 | register writes |
| Timer.OneShotExpires | src/dev_timer.c:80-99 | a one-shot counter stepped past its value stops at zero, disabled, having fired |
| Timer.RepeatExpires | src/dev_timer.c:89-95 | a repeating counter stepped past its value has the residual of its reload count, also from above the reload count |
| Timer.TicksAdd | src/dev_timer.c:68-101 | two ticks of a and b microseconds equal one of a + b |
| Timer.TicksDeliver | src/dev_timer.c:71-74 | n ticks deliver exactly floor((phase + n usec) / divider) unit steps |
| Timer.StepsFit | src/dev_timer.c:71-72 | the step count is never truncated by its 32-bit variable |
| Timer.StartedTimerExpires | src/dev_timer.c:45-59 | a timer started by its enable bit fires after exactly its reload count |
| Timer.Device.Tick | src/dev_timer.c:68-101 | the batch arithmetic equals the unit-step counter, interrupts included |
| Timer.Device.CountChannel | src/dev_timer.c:79-100 | one channel's part of it |
| Timer.Device.Write | src/dev_timer.c:45-66 | register writes of any size |
| Timer.Device.Read | src/dev_timer.c:22-43 | register reads, which acknowledge the interrupt |
| Calendar.AdvanceAdd | src/dev_i2c.c:317-365 | on valid BCD registers, advancing by a and then b equals advancing by a + b, and gives valid registers |
| Calendar.AddSecondsExact | src/dev_i2c.c:317-365 | day number and time of day together move by exactly the seconds, modulo the 36525-day cycle |
| Calendar.AddDaysNumber | src/dev_i2c.c:343-357 | the day loop adds exactly its count of days modulo the cycle and keeps dates valid |
| Calendar.DayNumberDetermines | src/dev_i2c.c:343-357 | a valid date is determined by its day number |
| Calendar.WholeCycles | src/dev_i2c.c:343-357 | whole cycles change nothing |
| Calendar.AdvanceFields | src/dev_i2c.c:317-365 | the routine on the register array, carries and all, is the addition of seconds |
| Calendar.CountDays | src/dev_i2c.c:343-357 | its day loop |
| PmuTheorems.BatterySupervision | src/dev_i2c.c:559-592 | over every run, with any register writes and restored registers between ticks: low latches only after a whole debounce window below the threshold, clears only at 104% of it, and forces standby only after the latch has held for the hold time |
| PmuTheorems.WindowLengths | src/dev_i2c.c:87-93 | the windows are the least numbers of ticks covering eight seconds and 62 milliseconds |
| PmuTheorems.LatchesExactly | src/dev_i2c.c:562-578 | at a steady low supply the latch comes after exactly one tick more than the window |
| PmuTheorems.SaveRestoreKeepsClock | src/dev_i2c.c:371-427 | after saving and restoring, the clock reads as if it had never stopped or exactly one second behind, and when which |
| PmuTheorems.WholeSecondSave | src/dev_i2c.c:409-427 | a save on a whole second loses nothing |
| PmuTheorems.AdvanceClockReads | src/dev_i2c.c:398-407 | moving the clock on shows at once the time that much later |
| PmuTheorems.TickClockInOrder | src/dev_i2c.c:594-602 | at a constant tick length a tick leaves the last second seen not ahead of the clock |
| PmuTheorems.AccessClockInOrder | src/dev_i2c.c:398-427 | so does everything done between ticks, setting, restoring and moving the clock included |
| PmuDevice.Device.Tick | src/dev_i2c.c:548-634 | the power manager's tick on its register array |
| PmuDevice.Device.Supervise | src/dev_i2c.c:559-585 | battery supervision in place |
| PmuDevice.Device.ReadClock | src/dev_i2c.c:371-386 | the clock's registers as they read now |
| PmuDevice.Device.AlarmCheck | src/dev_i2c.c:606-624 | the loop that compares the alarm with the clock |
| PmuDevice.Device.Write | src/dev_i2c.c:507-543 | register writes |
| PmuDevice.Device.Save | src/dev_i2c.c:409-416 | saving the registers |
| PmuDevice.Device.Restore | src/dev_i2c.c:418-427 | restoring them |
| I2sTheorems.Conservation | src/dev_i2s.c:51-73 | in every reachable state played = drained + underrun halfwords, and accepted = drained + queued + cleared |
| I2sTheorems.SampleClock | src/dev_i2s.c:189-200 | n ticks at a constant rate play exactly floor((acc + 2 n usec rate) / 1000000) halfwords and keep the fraction, whatever the FIFO holds |
| I2sTheorems.UnderrunsAreStretches | src/dev_i2s.c:211-217 | the underrun count grows by the number of maximal stretches of silence |
| I2sDevice.Device.PushTx | src/dev_i2s.c:130-144 | pushing into the FIFO's ring buffer, or an overrun |
| I2sDevice.Device.Drain | src/dev_i2s.c:198-229 | the drain loop plays one halfword for each full unit of the accumulator |
| I2sDevice.Device.Tick | src/dev_i2s.c:189-231 | the output's tick on its ring buffers |
| I2sDevice.Device.Write | src/dev_i2s.c:146-187 | register writes, resets and clears |
| I2sDevice.Device.SendAudio | src/web_frontend.c:741-787 | the body served for stream index i holds the i-th halfword played |
| PcmWindow.ServedRange | src/web_frontend.c:742-766 | a served range is whole frames, at most 16384 halfwords, still in the ring and, when not empty, in the current stream |
| PcmWindow.DroppedExactly | src/web_frontend.c:751-764 | what is counted as dropped, for every cursor: the exact gap before the oldest halfword and inside the range, except for the halfword an odd cursor skips, and nothing past the end |
| PcmWindow.FollowerNeverRepeats | src/web_frontend.c:742-776 | a client that follows the returned cursor never gets a halfword twice |
| AudioDma.AudioTransfer | src/dev_dma.c:111-162 | under any interleaving of ticks exactly the buffer's halfwords enter the FIFO, in order, without overrun, and the channel completes once, when all have entered |
| AudioDma.AudioCompletes | src/dev_dma.c:111-136 | with the output enabled the transfer does complete |
| DmaDevice.Engine.AudioRun | src/dev_dma.c:111-136 | the audio loop in place |
| DmaDevice.Engine.AudioCommand | src/dev_dma.c:138-162 | start and stop of an audio channel |
| DmaDevice.Engine.TryLcd | src/dev_dma.c:218-279 | an LCD request: acceptance, mismatch, and the transfer loop |
| DmaDevice.Engine.Tick | src/dev_dma.c:330-335 | the engine's tick over its channels |
| DmaDevice.Engine.Write | src/dev_dma.c:281-328 | channel register writes |
| DmaDevice.Engine.ReadStatus | src/dev_dma.c:164-183 | status reads, which acknowledge |
| LcdTheorems.Raster | src/dev_lcd2.c:66-82 | a stream from the window's origin draws pixel k at column k mod width and row k div width, leaves the rest of the graphics RAM alone, and returns to the origin when the window is full |
| LcdTheorems.StreamDraws | src/dev_lcd2.c:117-153 | pixels through the command port are drawn byte-swapped |
| LcdTheorems.BlockWordDraws | src/dev_lcd2.c:188-226 | a block word draws two pixels, or one if only one is left, with no overrun |
| LcdTheorems.ReachableInside | src/dev_lcd2.c:38-64 | cursor and window are inside the graphics RAM in every reachable state |
| LcdDma.AcceptedEndsBlock | src/dev_dma.c:235-269 | an accepted transfer brings the block to exactly zero; it overruns if and only if its byte count is one more than a multiple of four |
| LcdDma.AcceptedDraws | src/dev_dma.c:261-268 | pixel k of the window is halfword k of the buffer |
| LcdDma.LateWord | src/dev_dma.c:261-268 | from power-on, the register writes for a block of four pixels and a transfer of nine bytes, which is accepted and overruns |
| LcdDevice.Device.PushPixel | src/dev_lcd2.c:66-82 | drawing and stepping the cursor in place |
| LcdDevice.Device.PushBlockWord | src/dev_lcd2.c:188-226 | a block word in place |
| LcdDevice.Device.Write | src/dev_lcd2.c:228-257 | register writes |
| Memmap.TranslateFirst | src/memmap.c:57-72 | the first matching entry decides |
| Memmap.TranslateNone | src/memmap.c:57-72 | without a match the address stands |
| Memmap.TranslateUnit | src/memmap.c:15-55 | addresses of one 64 KB unit are matched alike and moved as a whole |
| Memmap.Search | src/memmap.c:57-72 | the search finds an entry if and only if one matches, and otherwise leaves its result alone |
| Tlb.AlwaysCoherent | src/cpu_unicorn.c:83-113 | under every run of fills, evictions, register writes, slices and flushes every cached translation is the one the registers give now |
| Tlb.FillRight | src/cpu_unicorn.c:91-113 | a fill from one address is right for its whole page |
| Tlb.RunInv | src/dev_memcon.c:32-46 | the invariant behind it, for writes of every size |
| Tlb.ReadsBack | src/dev_memcon.c:24-38 | a register reads back what was written in the same size |
| Tlb.BurstFlushesOnce | src/dev_memcon.c:55-72 | a burst of cache discards asks for one flush |
| Tlb.Controller.HookFill | src/cpu_unicorn.c:91-113 | the fill hook |
| Tlb.Controller.Write | src/dev_memcon.c:32-74 | register writes, with flushes at once and deferred |
| Tlb.Controller.StartSlice | src/cpu_unicorn.c:2848-2852 | a slice carries out a deferred flush |
| MmioProfile.RecordedExactly | src/bus.c:14-33 | the recorded addresses are the first 4096 different ones, each with its exact counts, and every other call is overflow |
| MmioProfile.NothingLost | src/bus.c:14-33 | all counts and the overflow add up to the number of calls |
| MmioProfile.EmptyMeansAbsent | src/bus.c:19-31 | probing that ends at an unused slot proves an address absent, because there are no gaps |
| MmioProfile.RoomMeansUnused | src/bus.c:19-32 | there is room in the map if and only if there is an unused slot |
| MmioProfile.InsertReported | src/bus.c:74-84 | inserting at the rank found keeps the list of the busiest entries |
| MmioProfile.Profile.CountAccess | src/bus.c:14-33 | linear probing over the table refines the map |
| MmioProfile.Profile.Report | src/bus.c:66-85 | the report lists the 16 busiest entries by total, then by address |
| Words.MergeThenRead | src/dev_memcon.c:13-22 | an access within a register reads back what one of the same size has written |
| Ram.Dram.FetchWord | src/ram.c:28-71 | a little-endian word from guest memory through its mirrors and aliases |

## Left out

- The ARM cores, their exceptions and the code cache; the loop takes the cores and the browser clients as two functions that keep the tick count and leave the devices in states that device accesses can reach. With both cores halted a slice is taken to do nothing, although the code carries out a deferred code-cache flush there that a jump puts off; `tb_flush_pending` is therefore not part of `Machine`.
- `run_forever` and the stop signal: only runs with a budget are modelled.
- MainLoop.LoopsAgree: when the last tick wakes the machine from standby, script and budget are left out of the comparison, because a jump updates them before the wake check and a tick does not; the emulator restarts then. Clients that make a tick shorter, so that the clock may fall behind the second last seen, are left out too. The counters `scheduled_insns`, `timing_boundaries` and `fast_forwarded_ticks` are not part of `World`; the first is the subject of `LoopRuns.JumpCharges`.
- FastForward.AdvanceIsTicks: asks for the clock in order, as it is at a constant tick length; `ClockRate.AdvanceWhenSeen` and `ClockRate.SecondsExact` are about the states after a change.
- The length of a tick is constant in `MachineInv.RunInv`, `FastForward.SkippedTicks`, `PmuTheorems.BatterySupervision`, `LatchesExactly`, `SaveRestoreKeepsClock`, `WholeSecondSave` and `TickClockInOrder`, `Timer.TicksDeliver`, `I2sTheorems.SampleClock` and `UnderrunsAreStretches`, and `AudioDma.AudioCompletes`.
- The 64-bit width of tick counts, microsecond products and statistics is not modelled; they are unbounded. The 32-bit tick of `timer.usec` is.
- Log lines and fields that only feed them (the last ATA command and feature, `counters.*`, the last input name, the block cursor shown in logs).
- Registers that only latch: other DMA registers and the secondary engine, the read-back of LCD and button registers, UART divisors and scratch, and the I2C bus transactions that carry the power manager's register accesses.
- LcdSpec keeps no separate linear cursor; it is always the row times the width plus the column.
- The codec's register map and volume table, the battery table: gain, rate and millivolts are parameters.
- The firmware's DMA manager list is a boolean: accepted or not. Its writes to guest memory are not modelled.
- Applying the mapping registers without virtual mapping (the remap of low memory and the flash alias).
- The hold switch's GPIO latch, the mailbox, backlight, flash, USB and other plain devices.
- Loading scripts and images, files, pictures of the panel, HTTP.
