# The PLC firmware's protocols, modelled and proved in Dafny

The firmware runs a programmable logic controller: it keeps settings in a wear-levelled EEPROM, switches a
building between mains and a reserve source, waters a garden from tanks, drives output ports, talks to a GSM
modem. This project models the protocols and state machines behind that, and proves what they are for, over
whole runs, 32-bit clock wraps and interleavings included.

Conventions:

- `millis()` and `micros()` are real time, a `nat` that never decreases, of which the code sees the low 32 bits.
  A timestamp is kept as the real time at which it was taken, but every comparison goes through `Clock.Low`, as
  in the code. `Clock` holds the laws of wrapping time.
- Each component that changes state step by step is a class with the firmware's fields. Its methods keep the
  firmware's branches and loops, and are proved equal to functions on plain values; the run properties are then
  proved about those functions, so they hold of the methods. What a function decides is also stated without it, in
  terms of settings, inputs, bytes or text: in `AvrOutcome`, `EepromBytes` and `WateringRules`, and in `Groups`,
  `IoInputs`, `Meteo`, `RemoteDetects` and `Sim800l` themselves.
- Failing buses, refused locks, input levels, random delays between calls, and what a callback does are
  parameters: a property that does not mention them holds for all of them.

`dafny verify dfyconfig.toml` checks everything.

| file | contents |
|---|---|
| `Clock` | elapsed time and order on a wrapping 32-bit clock |
| `At24lc512` | the EEPROM chip, whose page writes wrap, and its chunking driver |
| `EepromLayout`, `EepromStorage`, `EepromBytes` | the address arithmetic of the seven record kinds; rings of snapshots with wrapping sequence numbers; the stored format byte by byte |
| `Avr`, `AvrController`, `AvrInputs`, `AvrSafety`, `AvrConvergence`, `AvrSettling`, `AvrOutcome`, `AvrDelays` | the automatic transfer switch: functions, object, debouncing, break before make in what it asks, settling, where it ends, delays |
| `AvrContactors`, `AvrOverlap` | the same switch down to its contactors, its relay writes carried by the output image and its applier; why no weaker bound on the applier will do |
| `TaskBinder` | the wake-up protocol between network tasks and the runtime's post phase |
| `StartKey`, `Calendar`, `Watering`, `WateringController`, `WateringRuns`, `WateringRules` | the watering scheduler, conservation over runs, what it does in terms of settings, tank and calendar, its start keys and weekday formula, and the logger's calendar |
| `IoStack`, `IoInputs` | the output image hand-off, expanders included, and the input debounce |
| `Options`, `Collections`, `Readings` | missing values; counting by sets; runs of input readings |
| `RemoteDetects`, `Sim800l`, `ModemDelays`, `PlcScan`, `Groups`, `Meteo` | bounded tables, queues and schedulers |

## What the proofs found

- The default EEPROM layout keeps all slots apart exactly up to 156 slots per kind; `setWearLevelSlots` accepts
  more (`EepromLayout.DefaultLayoutFits`).
- Break before make holds in what the transfer switch asks, and at the contactors as long as every relay write is
  carried by a whole pass of the output applier in less than the break time. That bound is exact on every board
  with two outputs (`AvrOverlap.BoundIsExact`), and the firmware has no guard for it: a run of manual transfers from
  power-up ends with both contactors closed, the applier having been between the two relays' ports when the second
  transfer was made (`AvrOverlap.LateOpeningOverlaps`). If one pass finds both relays changed, they overlap exactly
  if the closing port is sent before the opening one (`IoStack.PassOverlapsIff`).
- A disabled transfer switch with an inverted relay comes up with that contactor closed, with two of them both
  (`AvrSafety.BootIsOpen`).
- A faulted switch on a source, or on its way to one, never settles while neither source is there
  (`AvrSettling.SettlesIff`, `AvrSettling.FrozenForEver`); taking over by hand during a transfer to no source leads
  there (`AvrSettling.FaultOnReserve`).
- A watering run that meets an empty tank at the very instant of its end stays paused for ever
  (`WateringRuns.StuckIffAtTheEnd`, `WateringRuns.StuckForEver`).
- Such a run announces a resume in every pass that finds the tank filled, and never resumes
  (`WateringRules.StuckResumes`).
- Restoring a snapshot from before a start lets the slot start again in the same minute
  (`WateringRuns.OlderSnapshotRestarts`, `WateringRuns.StartedTwice`).
- A watering pass in which some rule needs the clock and cannot read it drops the events of every rule it has
  already handled, although their valves have moved (`WateringController.CompletesIff`,
  `WateringController.CompletionLost`).
- A full remote-detect table whose reports lie within one turn of the clock evicts the wrong entry exactly while they
  straddle a wrap (`RemoteDetects.EvictsOldestIffUnwrapped`); the newest entry may be the one that goes
  (`RemoteDetects.NewestEvicted`).
- A modem line that starts with `+CUSD:` or `+HTTPACTION:` is consumed before the waiting command sees it, so
  the USSD and HTTP commands that expect those texts normally end by their time-out
  (`Sim800l.PrefixedAnswersNeverComplete`).
- `advanceDateTime_` is right exactly if the second of the day plus the delta does not overflow 32 bits
  (`Calendar.AdvanceDateTime`).
- `initImages` leaves a clean output port in agreement with the hardware exactly if `PortIO` remembers its own last
  write or the image happened to be right (`IoStack.IoStack.InitOutputs`).

## Model

| member | source | states |
|---|---|---|
| `Clock.ElapsedNeverOverstates` | src/controllers/avr_controller.cpp:632-641 | the unsigned difference of two clock readings never exceeds the time really elapsed, and equals it below 2^32 ms |
| `Clock.NotBeforeIsOrder` | src/controllers/watering_controller.cpp:1040-1042 | within half the clock's range the modular comparison is the real order of the two times |
| `At24lc512.PageWriteIsFlat` | src/hal/at24lc512.cpp:119-130 | a write that stays inside one 128-byte page never meets the chip's in-page wrap |
| `At24lc512.WriteJoin` | src/hal/at24lc512.cpp:117-138 | two writes end to end, address wrap included, are one write of the joined bytes |
| `At24lc512.ReadBack` | src/hal/at24lc512.cpp:59-99 | reading the range just written gives the bytes written, for every address and length up to the chip's size |
| `At24lc512.At24.Write` | src/hal/at24lc512.cpp:101-148 | for every address and length, byte (addr + k) mod 65536 becomes buf[k] and nothing else changes; a failing bus leaves exactly a prefix stored; `usedBytes` moves only on success |
| `At24lc512.At24.Read` | src/hal/at24lc512.cpp:59-99 | a chunked read succeeds exactly if its lock, its address and every chunk are acknowledged, and then returns the flat range, the address counter wrapping |
| `At24lc512.HighWater` | src/hal/at24lc512.cpp:140-144 | `usedBytes` is the highest write end so far, clipped to the chip |
| `EepromLayout.SlotIsTruncated` | src/core/eeprom_storage.cpp:529-635 | for any slot count, the chain of 16-bit truncations yields the flat position modulo 65536 |
| `EepromLayout.RegionIsTruncated` | src/core/eeprom_storage.cpp:564-605 | the same for the start of each region, however many regions precede it |
| `EepromLayout.RegionsFollow` | src/core/eeprom_storage.cpp:564-605 | whatever regions are placed by their own setters, each other one follows the last placed one before it, or the sockets, by the sizes in between |
| `EepromLayout.SlotExact` | src/core/eeprom_storage.cpp:529-635 | up to 156 slots no address is truncated and every slot ends inside its region |
| `EepromLayout.Overfull` | src/core/eeprom_storage.cpp:22-23 | from 157 slots on some slot leaves the memory or shares bytes with another |
| `EepromLayout.DefaultLayoutFits` | src/core/eeprom_storage.cpp:529-635 | under the default layout all (kind, slot) ranges are in memory and pairwise disjoint if and only if there are at most 156 slots |
| `EepromStorage.HeaderRoundTrip` | src/core/eeprom_storage.cpp:70-76 | the twelve header bytes decode to the header they were made from |
| `EepromStorage.SlotUntouched` | src/core/eeprom_storage.cpp:71-82 | writing into one slot leaves what every other slot of any kind reads as |
| `EepromStorage.SavedRing` | src/core/eeprom_storage.cpp:58-86 | a save replaces exactly one slot of its ring by the new header and payload |
| `EepromStorage.OtherRing` | src/core/eeprom_storage.cpp:529-635 | a write by one kind leaves the whole ring of every other kind |
| `EepromStorage.SaveKeeps` | src/core/eeprom_storage.cpp:62-85 | live slots hold consecutive sequence numbers modulo 2^32 after every save; a save that repeats a torn one repairs the ring |
| `EepromStorage.ScanFindsYoungest` | src/core/eeprom_storage.cpp:96-110 | although `isSeqNewer_` is not transitive, the scan always holds the youngest live slot it has seen |
| `EepromStorage.NewestIsLastSaved` | src/core/eeprom_storage.cpp:636-639 | a full scan of a clean ring ends on the slot saved last, or finds nothing if nothing was saved |
| `EepromStorage.StepHolds` | src/core/eeprom_storage.cpp:58-126 | the ring invariant survives every save, torn save, load, reboot followed by a load, and write by another kind |
| `EepromStorage.RunHolds` | src/core/eeprom_storage.cpp:58-126 | the ring invariant holds after every legal run from a memory without headers of the kind |
| `EepromStorage.LoadReturnsLastSaved` | src/core/eeprom_storage.cpp:58-126 | after any such run that ends cleanly, a load, rebooted or not, returns exactly the last saved snapshot, past the wrap of the sequence counter |
| `EepromStorage.DefaultLayoutLoadsLastSaved` | src/core/eeprom_storage.cpp:58-126 | the same under the default layout for every slot count from 1 to 156 |
| `EepromStorage.OtherKindsLoadTheSame` | src/core/eeprom_storage.cpp:529-635 | saving one kind, wholly or torn anywhere, never changes what a load of any other kind returns, the version-1 socket record included |
| `EepromStorage.EepromStorage.Save` | src/core/eeprom_storage.cpp:58-86 | on success the log is the saved log; on failure the cursor stays and some prefix of the record is in the slot the next save will take; other kinds' cursors never move |
| `EepromStorage.EepromStorage.Load` | src/core/eeprom_storage.cpp:87-126 | on any bus, the chip is never changed and the result is the newest record among those whose headers could be read, if its members could be read too, the cursor moving to it; nothing otherwise, and then the cursor stays |
| `EepromStorage.LoadsOnAcks` | src/core/eeprom_storage.cpp:87-126 | on a bus that acknowledges everything that is the load of the run theorems |
| `EepromStorage.EepromStorage.Scan` | src/core/eeprom_storage.cpp:96-110 | the loop finds the newest matching header, and its slot, among those whose reads the bus acknowledged, and no others |
| `EepromStorage.EepromStorage.WriteFields` | src/core/eeprom_storage.cpp:457-483 | the members written one after the other are one flat write of the payload |
| `EepromStorage.EepromStorage.ReadFields` | src/core/eeprom_storage.cpp:114-119 | the members read one after the other are the payload written, exactly if the bus acknowledges each |
| `EepromStorage.EepromStorage.LoadLegacy` | src/core/eeprom_storage.cpp:640-654 | the version-1 socket record in slot 0 is returned exactly if its header is there and the bus acknowledges the reads |
| `EepromBytes.OldSocketsLoad` | src/core/eeprom_storage.cpp:640-654 | on a chip without a current socket record, and a bus that acknowledges, a load returns the 18 bytes at base + 12 if the memory at base reads 31 50 53 45 01 00 48 00, and nothing otherwise |
| `EepromBytes.NothingToLoad` | src/core/eeprom_storage.cpp:87-126 | a load of any other kind returns nothing from a chip on which no slot begins with its mark, whatever the bus does |
| `EepromBytes.MarkTells` | include/core/eeprom_storage.hpp:124-194 | a slot counts as a record of its kind exactly by the bytes of the mark, the security load ignoring two of them; the four bytes after it, low byte first, are its number |
| `EepromBytes.RecordInBytes` | src/core/eeprom_storage.cpp:70-82 | a save stores the eight bytes of the mark, the number low byte first, and the payload |
| `EepromBytes.WearIsLevel` | src/core/eeprom_storage.cpp:62-67 | over every legal run, torn saves and reboots included, the save after n complete ones takes slot n modulo the slots and number n + 1 modulo 2^32; with one slot always number 1 |
| `EepromStorage.EepromStorage.SetWearLevelSlots` | src/core/eeprom_storage.cpp:22-23 | zero slots become one |
| `AvrController.AvrController.Task_` | src/controllers/avr_controller.cpp:69-147 | one tick, branch by branch, the early return on a changed configuration included, as the function whose outcome `AvrOutcome` states; whatever the inputs and the time, the safety invariant and break before make still hold |
| `AvrController.AvrController.Begin` | src/controllers/avr_controller.cpp:54-67 | an enabled controller starts open and idle, a disabled one is left alone; either is safe from here on unless it is disabled with an inverted relay |
| `AvrController.AvrController.SetControllerEnabled` | src/controllers/avr_controller.cpp:226-254 | either change asks both relays open and aborts a transfer, disabling also clears the fault; the safety invariant is kept |
| `AvrController.AvrController.SetAutoMode` | src/controllers/avr_controller.cpp:261-269 | switching automatic mode on forgets the manual source; the safety invariant is kept |
| `AvrController.AvrController.SetManualSource` | src/controllers/avr_controller.cpp:302-310 | a new manual source starts a transfer at once, but not in automatic mode; the safety invariant is kept, also in the middle of a transfer |
| `AvrSafety.RelaysDriven` | src/controllers/avr_controller.cpp:543-548 | what the two relay writes ask of the two contactors, the state between them included, for any inversion and unset ports |
| `AvrSafety.OpeningIsSafe` | src/controllers/avr_controller.cpp:535-549 | asking both contactors open keeps break before make in what is asked, and starts an open interval |
| `AvrSafety.ClosingIsSafe` | src/controllers/avr_controller.cpp:663-668 | asking one contactor closed keeps it once both have been asked open long enough |
| `AvrSafety.TaskIsSafe` | src/controllers/avr_controller.cpp:69-147 | every tick keeps the safety invariant, whatever the inputs and the time since the last tick |
| `AvrSafety.StepIsSafe` | src/controllers/avr_controller.cpp:226-310 | so does every command, also in the middle of a transfer |
| `AvrSafety.RunIsSafe` | src/controllers/avr_controller.cpp:535-690 | every run of ticks and commands leads to a state that satisfies the invariant |
| `AvrSafety.BootIsOpen` | src/controllers/avr_controller.cpp:54-67 | the outputs come up with both contactors asked open if and only if the controller is enabled or no relay is inverted |
| `AvrSafety.BothClosedAtPowerUp` | src/controllers/avr_controller.cpp:54-57 | a disabled controller with both relays inverted comes up asking both contactors closed |
| `AvrSafety.AlwaysBreaksBeforeMaking` | src/controllers/avr_controller.cpp:619-690 | from power-up, no relay write ever asks for both contactors; when one asks a contactor to close, both were asked open for `break_ms` of real time, plus `warmup_ms` for the reserve; the interlock fault is never raised |
| `AvrContactors.StepKeepsInv` | src/hal/gpio/gpio.cpp:27-32 | every step of controller, image and applier keeps: what image, copy, latch and pin of a relay show are the controller's own writes, in order |
| `AvrContactors.RunKeepsInv` | src/hal/io_stack.cpp:104-151 | so does every interleaved run |
| `AvrContactors.PowerUpComesUp` | src/app.cpp:443-446 | once the outputs are enabled after `begin`, both contactors are open and such a run can start |
| `AvrContactors.PassShows` | src/hal/io_stack.cpp:104-136 | a whole pass of the applier brings every write made before it, or a later one, to the pin, on whatever backend |
| `AvrContactors.Gap` | src/controllers/avr_controller.cpp:632-690 | a contactor asked closed after the other was: the opening between them was asked at least `break_ms` earlier |
| `AvrContactors.FrequentPassesArePrompt` | src/core/plc_scan.cpp:28-46 | if writes reach the image within w and every stretch of p holds a whole pass, every write is carried by a whole pass within w + p |
| `AvrContactors.NeverBothClosed` | src/controllers/avr_controller.cpp:619-690 | if every relay write is carried by a whole pass within less than `break_ms`, the two contactors are never both closed, under every interleaving with the applier and other writers; that this bound is exact is `AvrOverlap.BoundIsExact` |
| `AvrContactors.ClosingFollowsBreak` | src/controllers/avr_controller.cpp:619-690 | and a contactor closes only after both have been open for `break_ms`, plus `warmup_ms` for the reserve, less that bound |
| `AvrOverlap.LateOpeningOverlaps` | src/hal/io_stack.cpp:104-151 | on every board with two outputs, and for every break time, there is a run from power-up, through manual transfers, in which every relay write is carried by a whole pass within the break time itself and both contactors are closed at the end |
| `AvrOverlap.BoundIsExact` | src/controllers/avr_controller.cpp:619-690 | for every board, `break_ms` and lag: no run whose relay writes are all carried within the lag has both contactors closed if and only if the lag is less than `break_ms`, or the board has not two outputs |
| `AvrOverlap.Transfers` | src/controllers/avr_controller.cpp:619-690 | a manual transfer without warm-up takes exactly the break time and four relay writes, whatever the applier is in the middle of |
| `AvrOverlap.WholePass` | src/hal/io_stack.cpp:104-136 | the applier can always make a whole pass, which carries every write made so far |
| `AvrInputs.RawMeans` | src/controllers/avr_controller.cpp:489-510 | the raw level is that of every successful sample since the time kept with it |
| `AvrInputs.StableChangesOnlyWhenSteady` | src/controllers/avr_controller.cpp:489-510 | after the first sample the stable level changes only to one that every successful sample of the last `debounce_ms` of real time has shown |
| `AvrInputs.StableFollowsSteady` | src/controllers/avr_controller.cpp:489-510 | the first sample after `debounce_ms` of a steady level takes it over |
| `AvrInputs.StableFollowsRun` | src/controllers/avr_controller.cpp:489-510 | over a run of samples of whatever spacing, a level that every successful sample shows from its change on is stable after `debounce_ms` |
| `AvrInputs.FirstSampleCounts` | src/controllers/avr_controller.cpp:491-498 | the first successful sample is taken over at once |
| `AvrInputs.InputsChangeOnlyWhenSteady` | src/controllers/avr_controller.cpp:519-533 | over runs of ticks, `main_ok`, `reserve_ok` and the two feedbacks change only to such a level, each by its own port |
| `AvrInputs.InputsFollowSteady` | src/controllers/avr_controller.cpp:519-533 | and each follows a level of its port that stays for `debounce_ms` |
| `AvrConvergence.DecisionDescends` | src/controllers/avr_controller.cpp:560-617 | every change of mind in automatic mode lowers the number of changes still to come by one |
| `AvrConvergence.FreshInTime` | src/controllers/avr_controller.cpp:632-655 | a transfer that keeps up with its ticks does not time out and its phases are measured exactly |
| `AvrConvergence.TickDescends` | src/controllers/avr_controller.cpp:69-147 | no tick raises the rank, and one that changes the source lowers it |
| `AvrConvergence.CalmRunSettles` | src/controllers/avr_controller.cpp:560-696 | over any calm run, however long, there are at most as many changes as the rank |
| `AvrConvergence.AtMostThreeMoreChanges` | src/controllers/avr_controller.cpp:560-696 | from any reachable state, with constant debounced inputs, ticks at most g apart and a timeout of break + warm-up + 3g, at most three more transfers or source changes ever happen |
| `AvrSettling.TickFalls` | src/controllers/avr_controller.cpp:69-147 | every calm tick pays for the time it took out of a bounded budget, or settles the switch |
| `AvrSettling.SettlesInBudget` | src/controllers/avr_controller.cpp:560-696 | a calm run that outlasts the budget ends idle on a source that no decision leaves |
| `AvrSettling.AlwaysSettles` | src/controllers/avr_controller.cpp:560-696 | from any reachable state, after a first tick however late, calm ticks for longer than the worst case (two delays and three transfers) end so |
| `AvrSettling.FaultFreezes` | src/controllers/avr_controller.cpp:118-124 | with neither source there, a faulted idle switch is left as it is |
| `AvrSettling.IdleSettlesIff` | src/controllers/avr_controller.cpp:118-136 | over calm ticks that last long enough an idle switch settles if and only if a source is there, or it has no fault, or it is off |
| `AvrSettling.SettlesIff` | src/controllers/avr_controller.cpp:69-147 | the same for a switch in a transfer that keeps up with its ticks: it settles if and only if a source is there, or its fault, if any, goes with no source |
| `AvrSettling.FrozenForEver` | src/controllers/avr_controller.cpp:118-147 | with neither source there, a faulted switch that is on a source, or on its way to one, never settles, however long the ticks go on |
| `AvrSettling.FaultOnReserve` | src/controllers/avr_controller.cpp:226-310 | a run from power-up, with a manual take-over in the middle of a transfer to no source, that ends so: automatic mode, idle on the reserve, faulted, neither source there |
| `AvrSettling.AutomaticFromPowerUp` | src/controllers/avr_controller.cpp:560-696 | both results of automatic mode, from power-up on and after any ticks and commands |
| `AvrOutcome.EndsOn` | src/controllers/avr_controller.cpp:560-617 | a calm run that lasts long enough ends idle on main if and only if main is there and the switch started on main, or returns to main, or prefers main and started from neither, or there is no reserve; on neither if and only if neither is there; a transfer under way counts as started from where it goes |
| `AvrOutcome.EndsOnFromPowerUp` | src/controllers/avr_controller.cpp:69-147 | the same after any run from power-up, with exactly the relay of that source on |
| `AvrOutcome.FirstChoice` | src/controllers/avr_controller.cpp:600-616 | from neither source, with both there, the first transfer goes to main if and only if main is preferred |
| `AvrOutcome.HandEndsOn` | src/controllers/avr_controller.cpp:118-130 | ticks in manual mode, whatever they sample, end on the manual source, or with a fault where the switch is or is going |
| `AvrOutcome.ContactorsFollow` | src/controllers/avr_controller.cpp:535-549 | from power-up, after any ticks and commands, the output image asks a contactor closed if and only if the switch is idle on its source |
| `AvrOutcome.TakenOverIsConfirmed` | src/controllers/avr_controller.cpp:659-687 | a source becomes active only by a transfer to it, and with a feedback port only if the feedback shows it on; the switch count goes up by one |
| `AvrOutcome.ApplyEnds` | src/controllers/avr_controller.cpp:632-690 | a transfer being applied ends on its target, or on neither source with the fault of its timeout or its feedback |
| `AvrOutcome.DisabledIsOff` | src/controllers/avr_controller.cpp:69-95 | a disabled controller asks both contactors open and is on neither source |
| `AvrOutcome.NoSourceRaised` | src/controllers/avr_controller.cpp:560-598 | a tick raises the no-source fault if and only if it starts a transfer to neither source; then neither is there |
| `AvrOutcome.OffTimers` | src/controllers/avr_controller.cpp:598-600 | on neither source no loss is being timed, and the return of main is timed from the tick that first found it |
| `AvrOutcome.InterlockTrips` | src/controllers/avr_controller.cpp:98-107 | both relays on, a state no run reaches, would open both and stop the switch with the interlock fault |
| `AvrOutcome.ManualTakes` | src/controllers/avr_controller.cpp:302-310 | a manual source starts a transfer to it exactly if it is new, not the active one, and the mode is manual; nothing else changes |
| `AvrOutcome.AutoModeTakes` | src/controllers/avr_controller.cpp:261-269 | switching automatic mode on forgets the manual source, and no mode change touches anything else |
| `AvrOutcome.ManualForgotten` | src/controllers/avr_controller.cpp:261-269 | once automatic mode has forgotten the manual source none comes back without a command |
| `AvrOutcome.EnableTakes` | src/controllers/avr_controller.cpp:226-254 | switching the controller on or off leaves it idle on neither source with both contactors asked open; off also clears the fault |
| `AvrDelays.TransfersEndByTheirTimeout` | src/controllers/avr_controller.cpp:632-641 | a transfer is idle again no later than the first tick beyond its timeout |
| `AvrDelays.TimersAlwaysMean` | src/controllers/avr_controller.cpp:560-597 | a running loss or return timer marks a tick since which every tick saw main lost, or present |
| `AvrDelays.MainIsNotLeftEarly` | src/controllers/avr_controller.cpp:561-576 | main is left only after every tick for `loss_delay_ms` of real time saw it lost |
| `AvrDelays.ReserveIsNotLeftEarly` | src/controllers/avr_controller.cpp:578-597 | a working reserve is left only for main, and only after every tick for `return_delay_ms` saw main present |
| `TaskBinder.StepKeepsInv` | include/core/task_binder.hpp:147-169 | every step of every thread keeps the flag, token and phase invariant |
| `TaskBinder.ReachableStates` | include/core/task_binder.hpp:589-614 | the flag is set exactly while one announcement is on its way; pre and post phases never overlap; the published phase is the one running |
| `TaskBinder.OverwriteFindsQueueEmpty` | include/core/task_binder.hpp:160-169 | the queue overwrite never destroys an unread announcement |
| `TaskBinder.NoLostWakeUp` | include/core/task_binder.hpp:160-169 | once nothing is under way, every notify call ever made has been covered |
| `TaskBinder.CoveredMeansPostStarted` | include/core/task_binder.hpp:589-614 | a call is covered if and only if a post phase started after it |
| `TaskBinder.NeverStuck` | include/core/task_binder.hpp:589-614 | while a post phase is due, a step it waits for can always be taken |
| `TaskBinder.StepApproaches` | include/core/task_binder.hpp:589-614 | awaited steps bring the post phase nearer and no other step moves it away, short of the pre phase overtaking |
| `TaskBinder.PostStartsSoon` | include/core/task_binder.hpp:589-614 | after a notify call the next post phase starts before ten awaited steps have been taken |
| `StartKey.KeyIsTruncatedDigits` | src/controllers/watering_controller.cpp:930-934 | the key is the decimal digits of date, time and slot modulo 2^32 |
| `StartKey.KeyIsNeverZero` | src/controllers/watering_controller.cpp:930-934 | no date from 2000 to 2099 has key 0 |
| `StartKey.KeysAreInjective` | src/controllers/watering_controller.cpp:930-934 | although the arithmetic overflows, different minutes or slots of the century have different keys |
| `Calendar.NextDayIsNext` | src/utils/logger.cpp:61-81 | one turn of the carry loop is the next valid date on the linear scale, leap years and year ends included |
| `Calendar.CarryDays` | src/utils/logger.cpp:61-81 | the loop takes as many turns as there are days to carry |
| `Calendar.DaysLaterAdvances` | src/utils/logger.cpp:61-81 | n turns move the date by exactly n days and the weekday with it |
| `Calendar.AdvanceDateTime` | src/utils/logger.cpp:49-81 | the result is the valid date-time exactly delta seconds later if and only if the second count does not overflow, in particular for every delta below 2^32 - 86400 |
| `Calendar.CalcDowIsLinear` | src/controllers/watering_controller.cpp:1025-1031 | the closed weekday formula is the day number modulo seven |
| `Calendar.WeekdayStaysRight` | src/utils/logger.cpp:78-79 | the weekday counted by the loop stays the one the formula computes |
| `Calendar.DayNumberIsInjective` | src/utils/logger.cpp:25-46 | different valid dates have different day numbers |
| `Calendar.AdvanceIsUnique` | src/utils/logger.cpp:49-81 | there is only one date-time delta seconds later |
| `Calendar.AdvanceComposes` | src/utils/logger.cpp:49-81 | advancing by a and then by b is advancing by a + b |
| `WateringController.WateringController.Task` | src/controllers/watering_controller.cpp:59-221 | all thirty rules in order; a clock that cannot be read ends the pass and drops the events gathered |
| `WateringController.WateringController.PassRule_` | src/controllers/watering_controller.cpp:87-216 | one rule's turn on its state, as the function whose outcome `WateringRules` states; every other rule untouched |
| `WateringController.WateringController.StartSlot_` | src/controllers/watering_controller.cpp:184-216 | the first slot that matches and is not on record starts |
| `WateringController.WateringController.StopIfActive_` | src/controllers/watering_controller.cpp:1044-1059 | an active rule stops with its valve closed |
| `WateringController.WateringController.StopForEmpty_` | src/controllers/watering_controller.cpp:1061-1093 | an active rule pauses with the time left, or stops |
| `WateringController.WateringController.ResumeAfterRefill_` | src/controllers/watering_controller.cpp:1095-1111 | a paused rule with time left runs again for exactly that time |
| `WateringController.WateringController.SetForce_` | src/controllers/watering_controller.cpp:695-796 | manual override on and off, refusals included |
| `WateringController.WateringController.CancelKey_` | src/controllers/watering_controller.cpp:764-787 | the cancelled minute's first matching slot is put on record |
| `WateringController.WateringController.BuildRuntimeSnapshot` | src/controllers/watering_controller.cpp:533-566 | every rule's share of the snapshot |
| `WateringController.WateringController.ApplyRuntimeSnapshot` | src/controllers/watering_controller.cpp:491-531 | every rule restored from its share |
| `WateringController.EveryRulePasses` | src/controllers/watering_controller.cpp:83-216 | with a working clock every rule gets its turn on its own state alone, and the pass completes |
| `WateringController.PendingFits` | src/controllers/watering_controller.cpp:60-78 | a pass gathers at most one event per rule, so the list of thirty never overflows |
| `WateringController.CompletesIff` | src/controllers/watering_controller.cpp:170-180 | a pass completes, and announces its events, if and only if the clock can be read or no rule comes to need it |
| `WateringController.PassWithoutClock` | src/controllers/watering_controller.cpp:170-180 | without a clock exactly the rules before the first that needs it have had their turn, and nothing is announced |
| `WateringController.CompletionLost` | src/controllers/watering_controller.cpp:170-221 | such a pass: a run ends, its valve is closed, and the completion is never announced |
| `WateringRules.StoppedByTurn` | src/controllers/watering_controller.cpp:87-97 | a rule that is disabled, or switched off and not forced, is stopped by its next turn: not running, not paused, nothing left, not forced, valve shut, and the stop announced exactly if it was running |
| `WateringRules.DisabledStaysShut` | src/controllers/watering_controller.cpp:87-97 | over every history of turns, overrides and restores, the valve of a disabled rule is shut from its first turn on |
| `WateringRules.DryTankStops` | src/controllers/watering_controller.cpp:1119-1128 | a tank that is unknown, unreadable, or dry at all three sensors stops every rule that draws from it, forced or not, valve shut |
| `WateringRules.PassShuts` | src/controllers/watering_controller.cpp:59-221 | after a pass the valve of every rule it came to is shut that is disabled, switched off, or draws from a dry tank |
| `WateringRules.ForcedTurn` | src/controllers/watering_controller.cpp:99-129 | a forced rule waters as long as it has a port and water, and then is no longer forced; the events say which |
| `WateringRules.OverrideTakes` | src/controllers/watering_controller.cpp:695-796 | an override is refused for a disabled rule, an unset port, or newly on a dry tank, and changes nothing then; else the rule waters exactly if forced on |
| `WateringRules.OverrideRecords` | src/controllers/watering_controller.cpp:764-787 | ending a forced run on one of the rule's weekdays puts the first slot that calls for this minute on record; no other override does |
| `WateringRules.StartsIff` | src/controllers/watering_controller.cpp:184-216 | a start happens if and only if the rule is enabled, on, neither running, paused nor forced, has a port and water, today is one of its weekdays, and a slot calls for this minute and is not on record |
| `WateringRules.ResumesIff` | src/controllers/watering_controller.cpp:1130-1143 | a paused rule goes on if and only if it resumes after refills, its tank is filled to its level, and time is left; a resume is announced even without time left |
| `WateringRules.StopsAreTold` | src/controllers/watering_controller.cpp:142-168 | a running rule stops or pauses exactly when the tank is dry or its time is up, and the event says which |
| `WateringRules.GivesUpIff` | src/controllers/watering_controller.cpp:170-180 | a turn ends the pass if and only if the clock cannot be read and the rule could start now for all it knows |
| `WateringRules.AnnouncedIff` | src/controllers/watering_controller.cpp:215-221 | a pass announces each rule's event and no other, unless it needs the clock and cannot read it |
| `WateringRules.SavedMeans` | src/controllers/watering_controller.cpp:533-566 | what a snapshot keeps of a rule, its time left measured on the wrapping clock |
| `WateringRules.RestoredRuns` | src/controllers/watering_controller.cpp:491-531 | a restored rule runs if and only if it is enabled and was forced, or is on, was running and has time left |
| `WateringRuns.TickConserves` | src/controllers/watering_controller.cpp:142-168 | every pass keeps on-time plus time left equal to the slot's duration and what reboots made it repeat, or ends the run with all of it delivered and at most one gap more; a reported completion is always such an end |
| `WateringRuns.SnapshotConserves` | src/controllers/watering_controller.cpp:533-566 | a snapshot at any time between passes holds exactly the time left then |
| `WateringRuns.RebootConserves` | src/controllers/watering_controller.cpp:491-566 | a power cut at any time and the restore of the latest snapshot keep it, across unrelated clocks: what was watered since that snapshot is repeated, and nothing else |
| `WateringRuns.ForceSurvivesReboot` | src/controllers/watering_controller.cpp:491-566 | a manual run comes back after snapshot and restore as a manual run with its valve open, and no other rule comes back as one |
| `WateringRuns.WateringIsConserved` | src/controllers/watering_controller.cpp:142-168 | so does every history of passes, pauses, resumes, snapshots and power cuts, for as long as the run lasts |
| `WateringRuns.StartConserves` | src/controllers/watering_controller.cpp:184-216 | a start of a slot of at most 2147483 s begins such a run, with exactly the slot's duration |
| `WateringRuns.ResumesIffTimeIsLeft` | src/controllers/watering_controller.cpp:1095-1111 | a refilled paused rule resumes if and only if it has time left |
| `WateringRuns.StuckIffAtTheEnd` | src/controllers/watering_controller.cpp:1061-1093 | an undisturbed run that meets an empty tank is left paused with no time left if and only if the pass comes at the very instant of its end |
| `WateringRuns.StuckForEver` | src/controllers/watering_controller.cpp:133-160 | and then no later undisturbed pass changes it |
| `WateringRules.StuckResumes` | src/controllers/watering_controller.cpp:145-153 | but it announces a resume in every turn that finds the tank filled |
| `WateringRuns.ValveAlwaysFollows` | src/controllers/watering_controller.cpp:1113-1117 | passes, overrides and restores keep the valve asked open exactly while the rule runs |
| `WateringRuns.StartsAtMostOncePerMinute` | src/controllers/watering_controller.cpp:184-216 | under a clock that never goes back, a rule never starts twice in a calendar minute, whatever passes, overrides and restores come in between, unless a snapshot older than the start is restored |
| `WateringRuns.DueSlotStarts` | src/controllers/watering_controller.cpp:184-216 | a due slot starts unless its own start in this very minute is on record: no other date's key and not the default 0 suppresses it |
| `WateringRuns.DueStartsIff` | src/controllers/watering_controller.cpp:184-216 | on a due visit a start happens if and only if the key on record is not that of the slot in this very minute |
| `WateringRuns.OlderSnapshotRestarts` | src/controllers/watering_controller.cpp:504 | after a start and a restore of a snapshot from before it, a due visit in the same minute starts the slot again if and only if the older key differs from that of the start |
| `WateringRuns.StartedTwice` | src/controllers/watering_controller.cpp:491-531 | such a history: a slot started twice in one minute |
| `WateringRuns.CancelIsNotRestarted` | src/controllers/watering_controller.cpp:764-787 | cancelling a forced run in the start minute keeps the schedule from restarting it in that minute |
| `IoStack.StepKeepsInv` | src/hal/io_stack.cpp:104-151 | every step of writers and applier keeps: what is not dirty agrees, and pins show their latches outside the pass |
| `IoStack.CleanPortsAgree` | src/hal/io_stack.cpp:104-151 | in every reachable state, also inside the apply window, a port that is not dirty was last written with the level last asked; its pin shows it whenever the applier rests, and always if it is direct |
| `IoStack.CleanMayLag` | src/hal/mcp23017.cpp:60-75 | inside a pass a clean expander port may still show its old level |
| `IoStack.LevelWasHeld` | src/hal/io_stack.cpp:115-125 | the level the applier holds was in the image in this very pass |
| `IoStack.HardwareTakesHeldLevels` | src/hal/io_stack.cpp:121-135 | a pin changes only to a level the image really held earlier in the same pass |
| `IoStack.VisitAppliesTheRequest` | src/hal/io_stack.cpp:104-135 | a visit no writer interrupts leaves the port clean and last written with the requested level, which a direct pin shows |
| `IoStack.PassAppliesTheRequest` | src/hal/io_stack.cpp:104-136 | one whole pass during which the request stands puts it on the pin, whatever the backend |
| `IoStack.PassOverlapsIff` | src/hal/io_stack.cpp:104-136 | if one pass finds two ports changed, there is a moment at which one shows its new level and the other its old if and only if the other was not there before the pass and the one is sent first |
| `IoStack.CommitSeesLateWrites` | src/hal/io_stack.cpp:125-134 | after the second critical section a port is dirty if and only if what it was written with differs from the request, A-B-A included |
| `IoStack.IoStack.Write` | src/hal/io_stack.cpp:138-151 | a write is refused without the lock or an output; otherwise it is the new request and the port is dirty |
| `IoStack.IoStack.InitOutputs` | src/hal/io_stack.cpp:47-75 | a clean output it comes to agrees afterwards if and only if `PortIO` remembers it or its image was right; the rest is untouched |
| `IoStack.IoStack.ApplyOutputs` | src/hal/io_stack.cpp:104-136 | one uninterrupted pass leaves every output clean and its pin equal to its image, expanders included, and touches nothing else |
| `IoStack.IoStack.WritePort` | src/hal/gpio/portio.cpp:157-188 | a direct pin follows a write at once, an expander port is only latched |
| `IoStack.IoStack.FlushAll` | src/hal/gpio/extender.cpp:572-585 | the registers sent one after the other leave every pin on its latch |
| `IoInputs.IoInputs.ScanInputs` | src/hal/io_stack.cpp:77-102 | one debounced scan of every readable input, each by its own reading |
| `IoInputs.ChangeTimeMeans` | src/hal/io_stack.cpp:90-98 | a running change time marks a reading since which every successful reading showed the same level |
| `IoInputs.ImageChangesOnlyWhenSteady` | src/hal/io_stack.cpp:90-98 | the image changes only to a level that every successful reading of the last 100 ms showed |
| `IoInputs.ImageFollowsSteady` | src/hal/io_stack.cpp:90-98 | a level, high or low, that all successful readings show from its change on is in the image after any successful one that lies 100 ms after the change; a change read when the clock's word is zero dates from the next reading |
| `RemoteDetects.RemoteDetects.Notify` | src/controllers/security_controller.cpp:826-861 | at any time a report does to the table what it does to the recency list: a known key moves to the front, a full list drops exactly one entry, and that is a least recent one if and only if none reads older by its word; within one turn of the clock, if and only if the clock has not wrapped in between |
| `RemoteDetects.RemoteDetects.FindSlot` | src/controllers/security_controller.cpp:831-852 | the slot is the key's own, else a free one, else the first with the smallest time word |
| `RemoteDetects.RemoteDetects.Clear` | src/controllers/security_controller.cpp:908-919 | clearing a node, or all, removes exactly its entries from the list |
| `RemoteDetects.RemoteDetects.Count` | src/controllers/security_controller.cpp:873-886 | the number of matching entries |
| `RemoteDetects.RemoteDetects.At` | src/controllers/security_controller.cpp:888-906 | succeeds exactly below the count and returns the matching entry of that position |
| `RemoteDetects.MatchingEnumerates` | src/controllers/security_controller.cpp:888-906 | the positions enumerate every active slot of the node, or for node 0 of any, exactly once, in index order |
| `RemoteDetects.FullIffNoFreeSlot` | src/controllers/security_controller.cpp:843-852 | the list has 64 entries if and only if no slot is free |
| `RemoteDetects.ReportedMeans` | src/controllers/security_controller.cpp:826-861 | a report comes first; behind it is every entry of another node or sensor, but for the one a full list of 64 loses to a new key, and nothing else |
| `RemoteDetects.ClearedKeeps` | src/controllers/security_controller.cpp:908-919 | clearing a node keeps every entry of another one; node 0 keeps none |
| `RemoteDetects.ReportRefines` | src/controllers/security_controller.cpp:826-861 | keys stay pairwise distinct, the order stays recency, and the list changes as specified |
| `RemoteDetects.EvictsOldestIff` | src/controllers/security_controller.cpp:846-852 | on any full table a least recent entry is evicted if and only if no other report reads older by the low 32 bits of its time |
| `RemoteDetects.EvictsOldestIffUnwrapped` | src/controllers/security_controller.cpp:846-852 | with all reports within 2^32 ms, that is if and only if the clock has not wrapped between the oldest and the newest |
| `RemoteDetects.NewestEvicted` | src/controllers/security_controller.cpp:846-852 | a full table whose newest report, the only one since the clock wrapped, is the one evicted |
| `RemoteDetects.ClearRefines` | src/controllers/security_controller.cpp:908-919 | clearing keeps the order of the rest |
| `Sim800l.EnqueuedLawful` | src/hal/sim800l.cpp:38-51 | accepting a command keeps the queue law |
| `Sim800l.FinishedLawful` | src/hal/sim800l.cpp:138-158 | completing keeps it, also when the callbacks enqueue: the head, sent before, is done, and nothing else |
| `Sim800l.ExactlyOnceInOrder` | src/hal/sim800l.cpp:126-158 | in every run, accepted commands are those done followed by the ring, each sent once and completed once, in order |
| `Sim800l.AnswersAreEvents` | src/hal/sim800l.cpp:184-221 | whatever a line and its callbacks do is a run of the queue's events |
| `Sim800l.PrefixedAnswersNeverComplete` | src/hal/sim800l.cpp:223-269 | a command that expects `+CUSD:` or `+HTTPACTION:` completes on a line if and only if the line is neither unsolicited nor an error and carries the text; never on a line that starts with it |
| `Sim800l.CompletesIff` | src/hal/sim800l.cpp:184-279 | a line completes the command in flight if and only if it is not unsolicited and is `ERROR`, begins with `+CME ERROR` or `+CMS ERROR`, or carries the expected text, a bare prompt only without payload |
| `Sim800l.LineArrives` | src/hal/sim800l.cpp:160-182 | a line of up to 256 characters arrives whole, without the blanks around it |
| `Sim800l.PromptArrives` | src/hal/sim800l.cpp:160-167 | while the prompt is awaited, `>` is a line wherever it comes; no other character is treated differently |
| `Sim800l.Sim800l.EnqueueCommand` | src/hal/sim800l.cpp:38-51 | the command joins the ring's end, or the full ring refuses it |
| `Sim800l.Sim800l.SendSms` | src/hal/sim800l.cpp:79-89 | an SMS to a number joins the ring as a command that waits for the prompt; the payload is kept for the prompt even if the ring refuses the command |
| `Sim800l.Sim800l.StartNext` | src/hal/sim800l.cpp:126-136 | the head goes in flight with its own deadline |
| `Sim800l.Sim800l.FinishCommand` | src/hal/sim800l.cpp:138-158 | the head is done and dropped, whatever the callbacks enqueued meanwhile; the tail stays head plus count modulo 16 |
| `Sim800l.Sim800l.HandleLine` | src/hal/sim800l.cpp:184-221 | what a line does to the queue and the command in flight |
| `Sim800l.Sim800l.ConsumeChar` | src/hal/sim800l.cpp:160-182 | a character either buffers or ends a line, the `>` prompt included, and a line has its effect |
| `Sim800l.Sim800l.Tick` | src/hal/sim800l.cpp:20-36 | a tick is a run of the queue's events; the command in flight stays in flight with time left, or is completed, by an answer or its time-out, and the next starts with its own time-out; no command waits with none in flight; without input and time-out nothing happens |
| `ModemDelays.CompletedInTime` | src/hal/sim800l.cpp:20-36 | with ticks at most g apart, whatever the modem sends, the first n commands of the queue are completed once ticks have gone on for longer than g and, for each of them, its time-out, the payload's, and 3g |
| `ModemDelays.AlwaysOnTime` | src/hal/sim800l.cpp:126-136 | every tick leaves the driver in a state from which that bound holds |
| `ModemDelays.EnqueuedBefore` | src/hal/sim800l.cpp:38-51 | commands enqueued between ticks do not change what a tick means to those ahead of them |
| `PlcScan.TickKeepsAccount` | src/core/plc_scan.cpp:28-46 | deadline minus start stays cycle x (runs + missed) plus one residue below a cycle per overrun |
| `PlcScan.RunIsAccounted` | src/core/plc_scan.cpp:28-46 | the account holds over every run |
| `PlcScan.RunsAreBounded` | src/core/plc_scan.cpp:28-46 | by time T there have been at most (T - start) / cycle + 1 runs |
| `PlcScan.PlcScanLoop.Begin` | src/core/plc_scan.cpp:20-26 | the account starts at the present time |
| `PlcScan.PlcScanLoop.Tick` | src/core/plc_scan.cpp:28-46 | the wrapping words stay the low words of the account, and the cycle runs exactly when the account says |
| `PlcScan.PlcScanLoop.TimeToNextUs` | src/core/plc_scan.cpp:48-54 | the real time left to the deadline, zero once it is due |
| `Groups.BestIsLeast` | src/utils/configs_manager.cpp:90-103 | the inner loop's choice is a candidate no candidate is before; none only if there is none |
| `Groups.TakenIsSorted` | src/utils/configs_manager.cpp:85-113 | each round takes a group that is not before anything taken |
| `Groups.TakenIsAll` | src/utils/configs_manager.cpp:85-113 | the rounds take every valid group exactly once |
| `Groups.EnumerationIsASort` | src/utils/configs_manager.cpp:75-113 | indices 0 to count - 1 give a permutation of the valid groups in order of sort, name and id, and every larger index fails |
| `Groups.ListedInOrder` | src/utils/configs_manager.cpp:90-103 | of two positions the earlier has the smaller sort, at equal sort the name that ends first or has the smaller character at the first difference, at equal names the smaller id |
| `Groups.EveryGroupIsListed` | src/utils/configs_manager.cpp:75-113 | every group with an id and a name has a position |
| `Groups.ConfigsManager.GroupCount` | src/utils/configs_manager.cpp:75-83 | the number of valid groups |
| `Groups.ConfigsManager.GroupByIndex` | src/utils/configs_manager.cpp:85-113 | the group at that position of the enumeration, or failure |
| `Groups.ConfigsManager.SetGroup` | src/utils/configs_manager.cpp:115-139 | succeeds exactly if the id is known or a slot is free, changes one slot, and keeps nonzero ids unique |
| `Groups.ConfigsManager.RemoveGroup` | src/utils/configs_manager.cpp:141-153 | clears exactly the group's slot; the id is then unused |
| `Groups.ConfigsManager.AllocateGroupId` | src/utils/configs_manager.cpp:155-171 | always returns the smallest unused nonzero id: the zero return is never reached |
| `Meteo.MeteoController.Task` | src/controllers/meteo_controller.cpp:97-205 | the first due sensor from the scan index on is selected; the index moves past it unless the controller was switched off meanwhile, its read time is kept unless its configuration changed, and a failed DS18B20 read starts the conversions over |
| `Meteo.MeteoController.Scan` | src/controllers/meteo_controller.cpp:107-140 | the scan loop, intervals, types and the DS18B20 conversion that moves on during it included, selects the first due sensor |
| `Meteo.MeteoController.UpdateConversion_` | src/controllers/meteo_controller.cpp:792-812 | the conversion after a visit, as the bus answers: completed, started, lost or unchanged |
| `Meteo.ScanSelects` | src/controllers/meteo_controller.cpp:107-140 | the scan with its moving conversion selects the first sensor, cyclically, that is due by the conversion found at its own place |
| `Meteo.DueIff` | src/controllers/meteo_controller.cpp:109-134 | a sensor is due if and only if it is enabled, remote or of a type, not read for 2, 3 or 1 seconds, and as a DS18B20 has a conversion |
| `Meteo.NotSelectedEarly` | src/controllers/meteo_controller.cpp:107-140 | no sensor is selected before its interval has passed since its last read, clock wraps included |
| `Meteo.DueByConversion` | src/controllers/meteo_controller.cpp:128-132 | a DS18B20 whose interval has passed is due if and only if the bus completes a conversion when the scan comes to it, or one was completed less than a second before |
| `Meteo.MovesOnlyFor` | src/controllers/meteo_controller.cpp:107-132 | a scan moves the conversion on only for an enabled DS18B20 of its own bus that was not read within the last second |
| `Meteo.TwoVisitsComplete` | src/controllers/meteo_controller.cpp:792-812 | of two visits in a row on a bus that answers, one finds a complete conversion |
| `Meteo.SelectsNearest` | src/controllers/meteo_controller.cpp:107-140 | the selected sensor is at least as near, cyclically, as any due one |
| `Meteo.WaitingDescends` | src/controllers/meteo_controller.cpp:179-184 | every call that passes a due sensor over brings the index nearer to it |
| `Meteo.ChosenWithinFifty` | src/controllers/meteo_controller.cpp:104-184 | a sensor due for fifty calls is chosen in one of them |
| `Meteo.StaysDue` | src/controllers/meteo_controller.cpp:113-127 | a remote or DHT22 sensor that is due stays due until the clock has gone all the way round since its last read |
| `Meteo.DueIsReadWithinFifty` | src/controllers/meteo_controller.cpp:104-205 | so it is read within fifty enabled calls |

## Left out

Contracts stated weaker than the code might suggest:

- EepromStorage.EepromStorage.Load: when header reads fail, the newest readable record may be an older one, so no "last saved" claim holds there.
- EepromStorage.LoadReturnsLastSaved: runs in which a load or a reboot follows a torn save before the save is repeated, and saves before the first load on a used memory, are not covered; the firmware promises nothing there.
- AvrSafety.AlwaysBreaksBeforeMaking: ports, inversions and delays stay as they were at power-up; changing a relay port while its relay is on is not covered.
- AvrContactors.NeverBothClosed: no other task writes the relay ports, the image takes every relay write, and every expander transmission succeeds; the bound on the applier is an assumption, as nothing in the firmware enforces it.
- AvrContactors.ClosingFollowsBreak: the same assumptions.
- AvrOverlap.BoundIsExact: exact for each board and break time over all configurations and runs; the failing run is one without warm-up, under manual transfers.
- AvrConvergence.AtMostThreeMoreChanges: without feedback ports; with them `Apply` checks a sample taken before the relay is energised, so no claim of success fits.
- AvrSettling.AlwaysSettles: calm ticks come no further apart than the clock's range leaves beside the delays; with neither source there it needs a switch whose fault, if any, goes with no source.
- AvrSettling.SettlesIff: a transfer that has fallen behind its ticks is covered by the sufficient condition of `AvrSettling.AlwaysSettles` alone.
- AvrInputs.InputsChangeOnlyWhenSteady: the first successful sample is taken over at once; the debounce time does not change during the run.
- AvrOutcome.EndsOn: without feedback ports, like the settling results it builds on, and for a transfer that keeps up with its ticks.
- AvrOutcome.HandEndsOn: the same, in manual mode.
- IoInputs.ImageFollowsSteady: readings of the other level just before the change, or the start of the run; readings 2^32 ms and more after the change are not covered, as the wrapping clock measures them short.
- AvrDelays.TransfersEndByTheirTimeout: ticks are less than 2^32 ms minus the timeout apart; a longer silence is measured short by the wrapping clock.
- AvrDelays.MainIsNotLeftEarly: automatic mode throughout, without feedback ports.
- AvrDelays.ReserveIsNotLeftEarly: automatic mode throughout, without feedback ports.
- TaskBinder.PostStartsSoon: the pre phase may take the mutex ahead of a waiting consumer; nothing bounds how often.
- WateringRuns.StartsAtMostOncePerMinute: the slots of a rule have pairwise different start minutes, the clock stays in 2000 to 2099 and never goes back, and no snapshot older than the start is restored.
- WateringRuns.WateringIsConserved: enabled rules with resume after refill that nobody disables or overrides during the run; a reboot restores the latest snapshot taken since the start; passes and snapshots come at most one gap apart.
- RemoteDetects.EvictsOldestIff: entries of the same millisecond count as equally recent.
- ModemDelays.CompletedInTime: time-outs with the payload's are below 2^31 ms, as all in the firmware are, and ticks less than that apart.
- PlcScan.RunIsAccounted: ticks come within half the counter's range of the deadline.
- Meteo.DueIsReadWithinFifty: a DS18B20 sensor also waits for the bus to complete a conversion, and what the bus answers is an input; for it `Meteo.ChosenWithinFifty` states the result.
- IoStack.IoStack.InitOutputs: the output half; setting the input images from a first reading is the start of the runs in `IoInputs`.

Parts of the modelled components that are not modelled:

- AVR: logging, notifications, `fault_ms`, `source_since_ms`, relay writes that find the image locked, and the setters of ports and preferences beyond the mode changes in `AvrSafety.Command`.
- EEPROM: the I2C library's own transmit buffer limit, write delays and the lock's time-out length; `bind` and the base setters appear only as configuration.
- TaskBinder: task creation, and the window in `bindRuntime` before queue and mutex exist.
- Watering: configuration parsing, `setPort` and the other setters during a run, rules that share a port, the `dirty` and `runtime_dirty` flags, null or short snapshot buffers, the bit packing of snapshot masks; the clock time is one value per rule and pass, where the code reads it again inside a branch.
- I/O stack: `pinMode`, reads of the image, the time before the outputs are enabled, expander transmissions that fail, and the restoring of an expander that comes back.
- Modem: the text of the SMS payload, parsing of unsolicited lines, the collected response text.
- Groups: UTF-8 cleaning of names, references to a removed group.
- Logger: the ring of recent lines, output queue and formatting.

Components left out: GPIO, I2C, UART, OneWire, HTTP, file system, JSON, web, cloud and CLI code, the display, rules, septic, leak, ring, thermo, tank, socket and light controllers, and the alarm, RFID and SMS paths of the security controller: drivers, unseen libraries, or facts about single branches.
