# Washing-machine touch panel: control logic in Dafny

This project models the control logic of a washing-machine touch panel
firmware (an SAME70 board with a maXTouch sensor and an ILI9488 display).
The firmware keeps one record of globals: the selected program `ciclo`,
`is_on`, `is_locked`, `porta_aberta` (door open), `safety`, `flag`, and
the counters `seg`, `minu` and `tempo`. Four sources change that record:

- touch samples, read by the main loop and handled by `update_screen`;
- the one-second timer interrupt `TC1_Handler`;
- rising edges on the door input (`PORTA_callback`);
- rising edges on the safety input (`safe_callback`).

The model is a pure transition system over an immutable `State` datatype.
It has five modules:

- `Catalog`: the five wash programs of `maquina1.h`, as the enumeration
  `CycleId` (catalog index 0..4) with a `WashCycle` record for each. It
  also holds the `next`/`previous` links set by `initMenuOrder`, as the
  total functions `Next` and `Prev`.
- `Touch`: the axis remap from sensor to panel, in unsigned 32-bit
  arithmetic. It also holds the four inclusive button zones (lock, next,
  previous, play/pause) and `Dispatch`, which names the zone a panel point
  hits.
- `Control`: the state record, the start-up state, `update_screen`
  (`UpdateScreen`), the tick body of the timer interrupt (`TickHandler`),
  and the two edge callbacks. `PressPlay` is the play/pause branch of
  `update_screen` (start or pause), whose behaviour `PlayPausePress`
  states; a start takes the run length from `Catalog.RunLength`, the
  rinse time plus the spin time of the selected program. `Apply` is a
  reference semantics with one gated action per zone.
  `UpdateScreenFollowsDispatch` proves that the
  firmware's sequential checks behave like that reference semantics.
- `Timer`: repeated ticks. A run stops after exactly `totalMinutes * 60`
  ticks, and it stops only once.
- `Events`: the four sources as one serial stream of events. `Step`
  applies one event and `Run` folds `Step` over a sequence. It proves an
  invariant for every reachable state, plus per-event guarantees about who
  may change the lock, the selection, the door flag and the safety flag.

The panel size comes from the display driver, which is not part of this
model. It is taken as 320 x 480 pixels. The comment on the x remap (output
0..320) and the bottom button row, which reaches y = 480, fit that size.
The comment on the y remap also gives its output as 0..320, which the
zone coordinates contradict.

The model keeps these behaviours of the code as they are:

- The links do not form a clean ring. The quick program's `previous` link
  points at the rinse program, but the spin program's `next` link points
  at the quick program. So `Prev(Next(Centrifuga)) == Enxague`, and
  `Next(Prev(Rapido)) == Centrifuga`. `PrevAfterNext` and `NextAfterPrev`
  prove both round trips with their exact exceptions.
- A door edge while running is dropped, not deferred: `PORTA_callback`
  does nothing while `is_on`, and `DoorCallback` does the same.
- The lock gate `!is_locked` applies to play/pause as well as to next and
  previous. It reads the lock after the lock-zone check has run.
- When a run completes, the timer interrupt clears the lock, replays a
  play/pause press at the button's centre, and restores the lock.
  `TickHandler` models this step by step, so the lock keeps its value
  across completion.
- Starting a run always zeroes the counters, including a restart after a
  pause. The length of the new run is taken from the program selected at
  that moment.
- The check `minu == tempo` runs on every tick of a run, not only when the
  minutes roll over.

## Model

| member | source | states |
|---|---|---|
| Catalog.Record | LCD-maxTouch-Switch-Toggle/MXT_EXAMPLE_USART1/src/maquina1.h:21-77 | all numeric fields are non-negative; spin speed is zero exactly when spin time is zero; rinse count is zero exactly when rinse time is zero; only the heavy program sets `heavy`; exactly quick, daily and heavy set `bubblesOn`; every program's rinse-plus-spin time is positive and at most 23 minutes; names and icon keys fit their 32-byte buffers |
| Catalog.NamesIdentifyPrograms | LCD-maxTouch-Switch-Toggle/MXT_EXAMPLE_USART1/src/maquina1.h:21-67 | two programs have the same display name exactly when they are the same program |
| Catalog.RunLengthIgnoresOtherFields | LCD-maxTouch-Switch-Toggle/MXT_EXAMPLE_USART1/src/main.c:688 | over any program record, the run length `rinse time + spin time` is unchanged by the name, icon, rinse count, spin speed and both mode flags, and grows minute for minute with the rinse time and with the spin time |
| Catalog.Duration | LCD-maxTouch-Switch-Toggle/MXT_EXAMPLE_USART1/src/maquina1.h:21-77 | a catalog program's run length is its record's rinse-plus-spin time, positive and at most 23 minutes, so a started run always has time to complete |
| Catalog.Next | LCD-maxTouch-Switch-Toggle/MXT_EXAMPLE_USART1/src/main.c:343-360 | the `next` link moves one catalog position forward, modulo five |
| Catalog.Prev | LCD-maxTouch-Switch-Toggle/MXT_EXAMPLE_USART1/src/main.c:343-360 | the `previous` link moves one position back for every program except quick, which links to rinse; no `previous` link reaches the spin program |
| Catalog.InitMenuOrder | LCD-maxTouch-Switch-Toggle/MXT_EXAMPLE_USART1/src/main.c:343-360 | the linking routine hands back the program at catalog index 1 (daily) |
| Catalog.PrevAfterNext | LCD-maxTouch-Switch-Toggle/MXT_EXAMPLE_USART1/src/main.c:344-357 | `Prev(Next(c)) == c` if and only if `c` is not the spin program; for spin the round trip ends on rinse |
| Catalog.NextAfterPrev | LCD-maxTouch-Switch-Toggle/MXT_EXAMPLE_USART1/src/main.c:344-357 | `Next(Prev(c)) == c` if and only if `c` is not the quick program; for quick the round trip ends on spin |
| Catalog.NextNRotates | LCD-maxTouch-Switch-Toggle/MXT_EXAMPLE_USART1/src/main.c:343-360 | `k` presses of next advance the catalog position by `k`, modulo five |
| Catalog.NextReturnsAfterFive | LCD-maxTouch-Switch-Toggle/MXT_EXAMPLE_USART1/src/main.c:343-360 | `k` next presses return to the start if and only if `k` is a multiple of five |
| Catalog.NextReachesEveryProgram | LCD-maxTouch-Switch-Toggle/MXT_EXAMPLE_USART1/src/main.c:343-360 | every program is reached from every program by next presses, so the `next` links form one cycle through all five programs |
| Catalog.PrevLoopSkipsSpin | LCD-maxTouch-Switch-Toggle/MXT_EXAMPLE_USART1/src/main.c:344-356 | one or more previous presses never land on spin; from any other program, previous presses repeat with period four |
| Catalog.PrevOrbitFromRapido | LCD-maxTouch-Switch-Toggle/MXT_EXAMPLE_USART1/src/main.c:344-353 | previous presses from quick visit rinse, heavy, daily, then quick again |
| Touch.ConvertX | LCD-maxTouch-Switch-Toggle/MXT_EXAMPLE_USART1/src/main.c:705-709 | for sensor readings up to 4096, panel x is `320 - 320*y/4096` and lies in 0..320; y = 0 gives 320 and y = 4096 gives 0 |
| Touch.ConvertY | LCD-maxTouch-Switch-Toggle/MXT_EXAMPLE_USART1/src/main.c:711-715 | for sensor readings up to 4096, panel y is `480*x/4096` and lies in 0..480; x = 0 gives 0 and x = 4096 gives 480 |
| Touch.ConvertXAntitone | LCD-maxTouch-Switch-Toggle/MXT_EXAMPLE_USART1/src/main.c:705-709 | over 0..4096, panel x never increases as the sensor's y reading grows |
| Touch.ConvertYMonotone | LCD-maxTouch-Switch-Toggle/MXT_EXAMPLE_USART1/src/main.c:711-715 | over 0..4096, panel y never decreases as the sensor's x reading grows |
| Touch.WrappedXSelectsNothing | LCD-maxTouch-Switch-Toggle/MXT_EXAMPLE_USART1/src/main.c:708 | for any y reading whose 32-bit product `320*y`, wrapped and divided by 4096, exceeds 320 (the product itself may have wrapped), the unsigned subtraction wraps, giving a panel x beyond 320 that hits no zone |
| Touch.ZoneBounds | LCD-maxTouch-Switch-Toggle/MXT_EXAMPLE_USART1/src/main.c:156-178 | lock covers x 240..320, y 200..280; next x 240..320, y 400..480; previous x 0..80, y 400..480; play x 120..200, y 400..480, all borders included |
| Touch.ZonesDisjoint | LCD-maxTouch-Switch-Toggle/MXT_EXAMPLE_USART1/src/main.c:156-178 | no panel point lies in two zones |
| Touch.Dispatch | LCD-maxTouch-Switch-Toggle/MXT_EXAMPLE_USART1/src/main.c:734-765 | a point selects an action only if it lies in that action's zone, and it selects none if and only if it lies in no zone |
| Touch.PlayPointDispatchesPlayPause | LCD-maxTouch-Switch-Toggle/MXT_EXAMPLE_USART1/src/main.c:255 | the point replayed on completion selects play/pause |
| Control.Initial | LCD-maxTouch-Switch-Toggle/MXT_EXAMPLE_USART1/src/main.c:833-841 | after start-up, linking and one step forward and back leave daily selected; the machine is stopped and unlocked, the door is taken as open, safety is off, and the counters are zero |
| Control.UpdateScreen | LCD-maxTouch-Switch-Toggle/MXT_EXAMPLE_USART1/src/main.c:732-797 | a sample whose status is not 0x20 changes nothing; a touch never changes the door or safety flags; the lock changes only on an armed press in the lock zone; the selection changes only on a stopped, unlocked machine; running changes only on an unlocked press in the play zone |
| Control.UpdateScreenFollowsDispatch | LCD-maxTouch-Switch-Toggle/MXT_EXAMPLE_USART1/src/main.c:733-795 | with status 0x20, the sequential checks equal "apply the gated action of the one zone hit, if any" |
| Control.LockPress | LCD-maxTouch-Switch-Toggle/MXT_EXAMPLE_USART1/src/main.c:734-742 | a lock-zone press flips the lock if and only if safety is armed, and changes nothing else |
| Control.LockedPanelIgnoresButtons | LCD-maxTouch-Switch-Toggle/MXT_EXAMPLE_USART1/src/main.c:743-795 | on a locked panel, every touch outside the lock zone leaves the state unchanged, play/pause included |
| Control.SelectionPress | LCD-maxTouch-Switch-Toggle/MXT_EXAMPLE_USART1/src/main.c:747-763 | a press on next (on previous) moves the selection one `next` (`previous`) link when the machine is unlocked and stopped, leaves it otherwise, and changes no other field |
| Control.PlayPausePress | LCD-maxTouch-Switch-Toggle/MXT_EXAMPLE_USART1/src/main.c:765-793 | on an unlocked panel: stopped with the door open, nothing changes; stopped with the door shut, the run starts with both counters zero and a length equal to the program's rinse time plus spin time; running, it pauses and keeps the counters and length; `flag` flips with `running` |
| Control.TickHandler | LCD-maxTouch-Switch-Toggle/MXT_EXAMPLE_USART1/src/main.c:241-259 | a tick while stopped changes nothing; a tick never changes the program, lock, door, safety or run length; a tick that stops the run leaves the minutes equal to the run length |
| Control.DoorCallback | LCD-maxTouch-Switch-Toggle/MXT_EXAMPLE_USART1/src/main.c:324-334 | a door edge flips the door flag if and only if the machine is stopped, and changes nothing else |
| Control.SafetyCallback | LCD-maxTouch-Switch-Toggle/MXT_EXAMPLE_USART1/src/main.c:336-338 | a safety edge flips the safety flag in every state and changes nothing else |
| Timer.TickStep | LCD-maxTouch-Switch-Toggle/MXT_EXAMPLE_USART1/src/main.c:241-259 | one tick of a run adds one second of elapsed time; the run stays running exactly while elapsed time is below its length, and then it stops on a whole minute equal to the length |
| Timer.StoppedTicksAreInert | LCD-maxTouch-Switch-Toggle/MXT_EXAMPLE_USART1/src/main.c:241 | any number of ticks on a stopped machine change nothing |
| Timer.RunUntilComplete | LCD-maxTouch-Switch-Toggle/MXT_EXAMPLE_USART1/src/main.c:241-259 | from a run in progress, the machine runs for exactly its remaining seconds, gaining one second per tick with counters in range, and then stops with seconds 0 and minutes equal to the length |
| Timer.FreshRunLength | LCD-maxTouch-Switch-Toggle/MXT_EXAMPLE_USART1/src/main.c:241-259 | a run started from zeroed counters is running after every number of ticks below `totalMinutes*60`, and stopped, with seconds 0 and minutes equal to the length, after every number from there on |
| Timer.StartedProgramRunsItsDuration | LCD-maxTouch-Switch-Toggle/MXT_EXAMPLE_USART1/src/main.c:772-781 | after a start press, the selected program runs for exactly its rinse-plus-spin minutes times 60 ticks |
| Timer.TickIgnoresProgram | LCD-maxTouch-Switch-Toggle/MXT_EXAMPLE_USART1/src/main.c:241-259 | the tick logic does not depend on the selected program, so only the run length fixed at start decides when a run ends |
| Events.HandleSample | LCD-maxTouch-Switch-Toggle/MXT_EXAMPLE_USART1/src/main.c:279-291 | a sample with a status other than 0x20 changes nothing; for readings within full scale, a sample applies the action of the zone at the remapped point (sensor y to panel x, sensor x to panel y) |
| Events.Step | LCD-maxTouch-Switch-Toggle/MXT_EXAMPLE_USART1/src/main.c:231-338 | per event: the lock changes only on an armed lock press; the program changes only on a touch while stopped and unlocked; the door flag changes if and only if a door edge arrives while stopped; the safety flag changes if and only if a safety edge arrives; a failed read changes nothing |
| Events.InitialSatisfiesInvariant | LCD-maxTouch-Switch-Toggle/MXT_EXAMPLE_USART1/src/main.c:194-203 | the start-up state satisfies the controller invariant |
| Events.StepPreservesInvariant | LCD-maxTouch-Switch-Toggle/MXT_EXAMPLE_USART1/src/main.c:241-338 | every event keeps the invariant: `flag == running`, seconds in 0..59, minutes in 0..length, length at most 23, minutes below length while running, and seconds zero once minutes reach the length |
| Events.RunPreservesInvariant | LCD-maxTouch-Switch-Toggle/MXT_EXAMPLE_USART1/src/main.c:241-338 | every event sequence keeps the invariant |
| Events.ReachableStatesSatisfyInvariant | LCD-maxTouch-Switch-Toggle/MXT_EXAMPLE_USART1/src/main.c:194-203 | every state reachable from start-up satisfies the invariant |
| Events.RunningFreezesSelection | LCD-maxTouch-Switch-Toggle/MXT_EXAMPLE_USART1/src/main.c:747-763 | while a run lasts, no sequence of events changes the selected program or the door flag |
| Events.SelectionWalkThrough | LCD-maxTouch-Switch-Toggle/MXT_EXAMPLE_USART1/src/main.c:747-763 | from start-up, raw samples on next, previous, previous select heavy, daily, then quick |

## Left out

- Display output is not modelled: `ili9488_*`, `font_draw_text`, `draw_screen`, `draw_lock`, `draw_mode`, `update_timer`, the drawing parts of `draw_next`, `draw_prev` and `draw_play_pause`, and the icon bitmaps. It only writes to a driver that is not part of this model. The `icone` pointer of each program record is left out for the same reason.
- `led_update` is not modelled. It is a GPIO write of the LED from `!porta_aberta` and changes no state.
- The touch-controller set-up (`mxt_init`, the TWI transport) is not modelled. Neither is the formatting of diagnostic lines in `mxt_handler` and the batching of up to `MAX_ENTRIES` lines per USART write. Each successful read is one `Touched` event, and each failed read is one `ReadFailed` event.
- Clock and timer set-up is not modelled: `TC_init`, `RTC_init`, `RTT_init`, the empty `RTC_Handler` and `RTT_Handler`, `get_time_rtt`, and the unused `f_rtt_alarme`. This is hardware configuration with no effect on the state record.
- The GPIO set-up (`io_init`, `configure_lcd`, `configure_console`) is not modelled. Edge debouncing happens in the PIO peripheral, not in code, so edges inside the debounce window are not modelled. Each edge that reaches a callback is one event.
- Interrupt concurrency is not modelled. The firmware has no locking. Here every handler and every touch dispatch is one atomic step, applied in the order of the event sequence.
- The panel width and height come from the display driver, which is not part of this model. They are fixed at 320 and 480.
- `seg`, `minu` and `tempo` are C `int`s. They are modelled as unbounded integers. `Events.ReachableStatesSatisfyInvariant` bounds them by 60 and 23 in every reachable state, so 32-bit overflow cannot arise.
- The `heavy` and `bubblesOn` fields are `char` flags holding 0 or 1 in the source. They are modelled as `bool`.
