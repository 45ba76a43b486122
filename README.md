# JDI 1080p MIPI-DSI panel: power and command sequencing

This project models the `drm_panel` callbacks of the Linux driver for the JDI
1080p DSI panel (`drivers/gpu/drm/panel/panel-jdi-1080p.c`) and proves what
they do to the outside world.

- `Dsi` holds the command frames: a generic or DCS write, its payload bytes
  and the explicit length argument. It also holds the DCS opcodes and the
  twenty-frame vendor table that `jdi_panel_init` replays after the soft reset.
- `Events` records everything the driver does to the hardware as an
  append-only trace of events: regulators on or off, GPIO writes, sleeps,
  delays and DSI writes. Each DSI write carries the LPM bit
  (`MIPI_DSI_MODE_LPM`) in force when it is sent, since that bit decides
  whether the message goes out in low-power mode. The calls that can fail
  (regulator bulk enable and disable, every DSI write) take their results
  from a script of replies; a negative reply is an error code. The module
  also folds a trace into the three GPIO levels and filters it by kind of
  event.
- `Protocol` gives, for each operation and any reply script, the events it
  appends, the value it returns and the number of replies it uses, as pure
  functions. It proves the ordering and rollback properties about them.
- `Panel.JdiPanel` is the driver object. Its fields are `prepared`,
  `enabled`, the LPM mode bit, the three GPIO levels, the trace and the
  remaining replies. Its methods follow the C code statement by statement.
  `Init`, `BringUp`, `Prepare` and `Unprepare` are each proved to produce
  exactly the events, return value and reply use that the matching
  `Protocol` function or constant gives. The other methods state their
  trace, result and new fields directly in their contracts. The class
  invariant is that the GPIO levels match the trace, and are the active
  levels when the panel is prepared and the acquisition levels when it is not.
- `Mode` holds `default_mode` and `jdi_panel_get_modes`.

Three behaviours of the code are kept as written:

- After a failed init or display-on, prepare returns the result of
  `regulator_bulk_disable`, not the original error (see Findings).
- `enable` does not check `prepared`, so a panel can be enabled while
  unprepared.
- After a prepare that fails in init or display-on, the LPM bit stays set,
  because init already set it and only `jdi_panel_off` clears it. A prepare
  whose regulator enable fails leaves the bit as it was.

`default_mode` has a pixel clock equal to 60 frames per second of the total
raster (1279 × 1940 × 60 = 148875.6 kHz, the value noted beside the field).
Its `vrefresh` field nevertheless says 30. `Mode.DefaultModeClockIsSixtyHertz`
states both facts. The model keeps the constants as written.

## Model

| member | source | states |
|---|---|---|
| Dsi.DcsCommand | drivers/gpu/drm/panel/panel-jdi-1080p.c:48 | a DCS helper command is a well-formed DCS write whose payload is the single opcode byte |
| Dsi.InitTable | drivers/gpu/drm/panel/panel-jdi-1080p.c:54-200 | the twenty frames init writes after the soft reset, each with its framing, bytes and length argument as the code passes them |
| Dsi.InitTableWellFormed | drivers/gpu/drm/panel/panel-jdi-1080p.c:54-200 | the init table has twenty frames, and each passes a length argument equal to the number of bytes it supplies |
| Dsi.InitTableHeads | drivers/gpu/drm/panel/panel-jdi-1080p.c:54-200 | the frames address b0, 00, 00, b3, b6, c1, c2, c4, c6, c7, c8, c9, cc, d0, d3, d5, d5, 36, 29, 11, in that order |
| Dsi.InitTableFraming | drivers/gpu/drm/panel/panel-jdi-1080p.c:54-200 | frames 1, 2 and 17-19 are DCS writes and the rest generic writes; the two d5 frames are identical |
| Protocol.FramesRun | drivers/gpu/drm/panel/panel-jdi-1080p.c:54-203 | writing a list of frames sends a prefix of them in order and stops right after the first write that fails, returning that error; if none fails, all are sent and the last result is returned |
| Protocol.FramesAllSent | drivers/gpu/drm/panel/panel-jdi-1080p.c:54-203 | with no failing reply every frame is sent |
| Protocol.FramesStopAt | drivers/gpu/drm/panel/panel-jdi-1080p.c:54-203 | when write i is the first to fail, frames 0..i are sent, nothing after, and write i's error is returned |
| Protocol.ResetAndSend | drivers/gpu/drm/panel/panel-jdi-1080p.c:48-203 | init's writes return a non-negative result exactly when the soft reset and every table write succeed; in that case every frame was sent; otherwise the result is the first failure's error |
| Protocol.InitRun | drivers/gpu/drm/panel/panel-jdi-1080p.c:40-204 | jdi_panel_init on the twenty-frame table: the trace, result and reply use of ResetAndSend over the table, every write in low-power mode |
| Protocol.InitEvents | drivers/gpu/drm/panel/panel-jdi-1080p.c:48-203 | after a successful soft reset, init's trace is the soft reset, the 10-20 ms delay and a prefix of the table |
| Protocol.InitAllSent | drivers/gpu/drm/panel/panel-jdi-1080p.c:48-203 | with no failure, init sends the soft reset, waits 10-20 ms and sends all twenty frames in table order |
| Protocol.InitStopsAtFailure | drivers/gpu/drm/panel/panel-jdi-1080p.c:54-203 | if table frame k is the first write to fail, frames after k are never sent and frame k's error is returned |
| Protocol.InitTransfers | drivers/gpu/drm/panel/panel-jdi-1080p.c:40-204 | init puts on the channel the soft reset and a prefix of the table and nothing else; it writes no GPIO and never disables the regulators |
| Protocol.BringUpRun | drivers/gpu/drm/panel/panel-jdi-1080p.c:300-338 | prepare after the regulator enable: line steps, init and display-on; after a failed init or display-on, the power-down and the disable's answer as result |
| Protocol.PrepareRun | drivers/gpu/drm/panel/panel-jdi-1080p.c:294-338 | prepare on an unprepared panel: a failed regulator enable is returned at once, otherwise BringUpRun follows the enable |
| Protocol.PrepareCases | drivers/gpu/drm/panel/panel-jdi-1080p.c:294-338 | once the regulators are on, prepare either succeeds, or rolls back after a failed init, or rolls back after a failed display-on; each trace is written out |
| Protocol.PrepareOutcome | drivers/gpu/drm/panel/panel-jdi-1080p.c:294-338 | a failed regulator enable is returned at once and nothing else happens; a successful prepare returns 0; every other prepare starts with the full power-up and ends with the full power-down, returning the answer to the regulator disable |
| Protocol.PrepareSuccess | drivers/gpu/drm/panel/panel-jdi-1080p.c:294-325 | a fault-free prepare is regulators on, 20 ms, dcdc-en high, reset low, enable high (each followed by 10-20 us), the init sequence, display-on, and returns 0 |
| Protocol.PrepareSoftResetFailure | drivers/gpu/drm/panel/panel-jdi-1080p.c:311-338 | a failed soft reset sends nothing more and is followed by the rollback |
| Protocol.PrepareFrameFailure | drivers/gpu/drm/panel/panel-jdi-1080p.c:311-338 | a failed table frame k: no later frame is sent and the rollback follows |
| Protocol.PrepareDisplayOnFailure | drivers/gpu/drm/panel/panel-jdi-1080p.c:317-338 | a failed display-on after a complete init is followed by the rollback |
| Protocol.PrepareGpioOrder | drivers/gpu/drm/panel/panel-jdi-1080p.c:294-338 | the GPIO writes of a prepare are none when the regulators fail, otherwise dcdc-en high, reset low, enable high, followed on failure by enable low, reset high, dcdc-en low |
| Protocol.PrepareFiltered | drivers/gpu/drm/panel/panel-jdi-1080p.c:300-338 | filtered to GPIO writes or to regulator disables, a prepare is its power-up steps plus, after a failure, its power-down steps; the command traffic adds nothing |
| Protocol.PrepareRollsBackOnce | drivers/gpu/drm/panel/panel-jdi-1080p.c:327-338 | the regulators are disabled exactly once when prepare fails after enabling them, and never otherwise |
| Protocol.PrepareLevels | drivers/gpu/drm/panel/panel-jdi-1080p.c:300-338 | a prepare leaves the lines active when it succeeds, idle after a rollback, and untouched when the regulators fail |
| Protocol.IntendedPrepareRet | drivers/gpu/drm/panel/panel-jdi-1080p.c:311-338 | the corrected return value: 0 exactly when prepare succeeds, otherwise a negative error |
| Protocol.PrepareRetAsIntended | drivers/gpu/drm/panel/panel-jdi-1080p.c:311-338 | the corrected and the as-written values agree unless prepare rolls back; after a rollback the corrected value is the error of the step that failed, the call just before the regulator disable |
| Protocol.PrepareMasksInitError | drivers/gpu/drm/panel/panel-jdi-1080p.c:328-338 | with replies [0, -5] prepare fails but returns 0 as written, where -5 was meant |
| Protocol.PowerStepsFiltered | drivers/gpu/drm/panel/panel-jdi-1080p.c:300-336 | power-up writes dcdc-en high, reset low, enable high and disables no regulator; power-down disables the regulators once and writes enable low, reset high, dcdc-en low |
| Protocol.PowerUpFiltered | drivers/gpu/drm/panel/panel-jdi-1080p.c:294-309 | the GPIO writes of the power-up, in order, and no regulator disable |
| Protocol.PowerDownFiltered | drivers/gpu/drm/panel/panel-jdi-1080p.c:328-336 | filtering the power-down keeps its events in order: regulators off, enable low, reset high, dcdc-en low |
| Protocol.PowerUpActive | drivers/gpu/drm/panel/panel-jdi-1080p.c:300-309 | whatever the lines held before, power-up leaves them active |
| Protocol.PowerDownIdle | drivers/gpu/drm/panel/panel-jdi-1080p.c:328-336 | whatever the lines held before, power-down leaves them idle |
| Protocol.UnprepareEvents | drivers/gpu/drm/panel/panel-jdi-1080p.c:258-282 | the trace of unprepare on a prepared panel: display-off and enter-sleep outside low-power mode, 100 ms, regulators off, enable low, reset high, dcdc-en low |
| Protocol.UnprepareIdles | drivers/gpu/drm/panel/panel-jdi-1080p.c:267-277 | unprepare leaves the lines idle, disables the regulators once and writes enable low, reset high, dcdc-en low |
| Mode.DefaultModeTimings | drivers/gpu/drm/panel/panel-jdi-1080p.c:358-370 | hdisplay 1080 ≤ hsync_start 1180 ≤ hsync_end 1184 ≤ htotal 1279, vdisplay 1920 ≤ vsync_start 1930 ≤ vsync_end 1931 ≤ vtotal 1940, clock 148876, vrefresh 30, flags 0 |
| Mode.DefaultModeClockIsSixtyHertz | drivers/gpu/drm/panel/panel-jdi-1080p.c:358-370 | the clock is the 60 Hz pixel rate of the total raster rounded to the kHz, while vrefresh is half of 60 |
| Mode.DefaultMode | drivers/gpu/drm/panel/panel-jdi-1080p.c:358-370 | the timing constants of default_mode as written, sums included |
| Panel.JdiPanel.constructor | drivers/gpu/drm/panel/panel-jdi-1080p.c:429-443 | a new panel is unprepared and disabled, LPM is off, the lines are enable low, reset high, dcdc-en low, and the trace is empty |
| Panel.JdiPanel.WriteFrames | drivers/gpu/drm/panel/panel-jdi-1080p.c:54-203 | the write loop appends exactly the frames FramesRun sends, returns its result and uses one reply per write |
| Panel.JdiPanel.SendInitSequence | drivers/gpu/drm/panel/panel-jdi-1080p.c:48-203 | soft reset with early return, settle delay, then the table writes, exactly as ResetAndSend |
| Panel.JdiPanel.Init | drivers/gpu/drm/panel/panel-jdi-1080p.c:40-204 | init sets LPM before its first write, so every write goes out in low-power mode, and produces exactly InitRun's trace, result and reply use |
| Panel.JdiPanel.PanelOn | drivers/gpu/drm/panel/panel-jdi-1080p.c:206-220 | sets LPM, then sends display-on in low-power mode and returns its result |
| Panel.JdiPanel.PanelOff | drivers/gpu/drm/panel/panel-jdi-1080p.c:222-239 | clears LPM first, so display-off and enter-sleep go out outside low-power mode, sends both whatever they answer, then waits 100 ms |
| Panel.JdiPanel.PowerUpLines | drivers/gpu/drm/panel/panel-jdi-1080p.c:300-309 | 20 ms, then the three line writes with their delays, leaving the lines active |
| Panel.JdiPanel.PowerOff | drivers/gpu/drm/panel/panel-jdi-1080p.c:328-336 | regulators off, then the three line writes whatever the disable returned, leaving the lines idle |
| Panel.JdiPanel.BringUp | drivers/gpu/drm/panel/panel-jdi-1080p.c:300-338 | the rest of prepare after the regulator enable, exactly as BringUpRun; prepared exactly when init and display-on succeed |
| Panel.JdiPanel.Prepare | drivers/gpu/drm/panel/panel-jdi-1080p.c:285-339 | a no-op returning 0 on a prepared panel; otherwise exactly PrepareRun's trace, result and reply use, prepared exactly when every step succeeded, and the line invariant kept |
| Panel.JdiPanel.Unprepare | drivers/gpu/drm/panel/panel-jdi-1080p.c:258-282 | a no-op on an unprepared panel; otherwise display-off, enter-sleep, 100 ms and the power-down whatever the replies, ending unprepared with LPM off and idle lines; always returns 0 |
| Panel.JdiPanel.Enable | drivers/gpu/drm/panel/panel-jdi-1080p.c:342-356 | sets enabled and returns 0, changing nothing else (its frame is the enabled flag alone) |
| Panel.JdiPanel.Disable | drivers/gpu/drm/panel/panel-jdi-1080p.c:241-255 | clears enabled and returns 0, changing nothing else |
| Panel.JdiPanel.GetModes | drivers/gpu/drm/panel/panel-jdi-1080p.c:372-395 | if the copy is made, adds the default mode to the connector and returns 1; otherwise returns -ENOMEM and adds nothing |

## Left out

- Real time: `msleep` and `usleep_range` are trace events carrying their bounds.
- The regulator, GPIO and DSI library calls are not modelled inside. Each is
  an event, and the fallible ones take their result from the reply script.
  Replies past the end of the script are 0 (success).
- DSI packet framing: the data type and header chosen inside
  `mipi_dsi_generic_write` and `mipi_dsi_dcs_write_buffer` are not modelled,
  only the frame kind, payload and length argument. The DCS helpers
  (`mipi_dsi_dcs_soft_reset`, `_set_display_on`, `_set_display_off`,
  `_enter_sleep_mode`) are one-byte DCS writes of their opcode.
- The commented vendor command dump at the end of the file is not modelled.
  It describes no code that runs.
- Init is a loop over a constant frame table, not twenty straight-line write
  blocks. The order of writes, the early return after each failure and the
  returned value are the same.
- Probe, `jdi_panel_add`/`del`, remove, shutdown, `devm_*` resource lifetime,
  panel registration, device-tree matching and the lane/format/mode-flag
  setup are plumbing. Only their outcome, the initial flags and line levels,
  is the constructor. Failures to acquire regulators or GPIOs are not modelled.
- `drm_mode_duplicate`, `drm_mode_set_name` and `drm_mode_probed_add` are
  foreign. Duplication success is a parameter, and the connector's mode list
  is a sequence. Mode names are not modelled.
- `dev_err` logging, the commented-out backlight code and the commented
  physical-size settings are left out.
- The LPM bit is recorded on each DSI write, not as an event of its own, so
  the trace does not say when it changed relative to sleeps, delays or GPIO
  writes. Those do not depend on it.
- Concurrency: the callbacks are modelled single-threaded, as the driver has
  no locking.
- Panel.JdiPanel.Prepare: the class keeps the source's return value after a
  rollback. The corrected value is stated by Protocol.IntendedPrepareRet
  alongside it, not substituted into the class.

## Findings

| source | as written | input that shows it | evidently intended | confidence | as-written member | corrected member |
|---|---|---|---|---|---|---|
| drivers/gpu/drm/panel/panel-jdi-1080p.c:328 | on the poweroff path `ret` is overwritten with the result of `regulator_bulk_disable` | regulators enable (reply 0), soft reset fails (reply -5), disable succeeds (reply 0): prepare returns 0 though the panel stays unprepared | return the error of the init or display-on step that failed | high; not executed | Protocol.PrepareMasksInitError | Protocol.IntendedPrepareRet |
