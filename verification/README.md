# PicoTerminal firmware core in Dafny

PicoTerminal turns a Raspberry Pi Pico into a serial terminal with VGA output and a USB
keyboard. This project models the logic of its `main.cpp` and proves properties about it:

- **Settings store** (`ConfigStore`). The settings record has a magic tag, three indices into
  fixed option tables (video modes, baud rates, keyboard tables) and nine flags.
  `read_settings` copies the flash slot into the live settings. When the tag is wrong it
  recomputes the defaults: each default index comes from a backwards search of its table.
  `write_settings` stamps the tag and copies the live settings back to the slot. The two
  records and the hot-key flag raised by the USB layer are the fields of a `Device` class.
- **Setup menu** (`KeyInput`, `SetupMenu`). `run_osm` edits a working copy of the settings
  with the cursor keys, space and enter on rows 5 to 19. "save" commits to the live settings
  and flash, "exit" commits to the live settings and returns, and ESC ESC returns. The menu
  is a pure step function over decoded keys (`Step`, `Run`). `RunOsm` is the imperative loop,
  proved equal to `Run`. `RowInk` models the green/red marker of `inked`.
- **Serial bridge** (`SerialBridge`). The loop of `run_ansiterm` passes received bytes to the
  terminal and sends the terminal's queued bytes out. XON (17) and XOFF (19) from the host
  resume and pause sending. `Iteration`/`Run` specify the loop, and `RunAnsiterm`/`Shuttle`
  implement it against a `Terminal` class.
- **Supervisor** (`Supervisor`). `main` plans each session from the previous error and the
  live settings. An error forces the 320x240 mode, no mouse pointer and the setup menu. After
  each session, `main` recomputes the error from the hot-key flag and clears the flag; an
  exception turns into an error instead. `RunFirmware` is the loop, proved equal to the pure
  `Sessions`.

Hardware and foreign calls are parameters of the model:

- received serial bytes, typed keyboard bytes and the hot key are input sequences;
- exceptions are an `Outcome` input;
- the compile-time defaults (video mode, baud rate, keyboard table and the eight terminal flags) are a `BuildDefaults` parameter;
- video and USB setup are reduced to the `SessionPlan` they are given.

Two behaviours of `read_settings` are worth noting:

- A record whose tag is right is loaded as it is, even with an index outside its table
  (main.cpp:91). `ConfigStore.LoadKeepsTaggedRecord` states exactly when the loaded record is
  in range.
- The default record keeps the tag it was read with. Only saving stamps the tag
  (main.cpp:90-114, main.cpp:118).

## Model

| member | source | states |
|---|---|---|
| ConfigStore.LastIndexOf | main.cpp:93-100 | the index found is the last entry equal to the wanted value, or 0 when no entry matches; it is below the table length for a non-empty table |
| ConfigStore.FindLast | main.cpp:93-100 | the decrement-then-compare loop returns exactly `LastIndexOf` of the table |
| ConfigStore.Defaults | main.cpp:93-113 | the indices are always in range; each selects the build's default video mode, baud rate or keyboard table when the table holds it, and is 0 when it does not; the mouse is off; the eight terminal flags are the build's `ANSITERM_DEFAULT_*` values; the tag is left as read |
| ConfigStore.Device.ReadSettings | main.cpp:88-114 | the live settings become `Load(flash)`: the slot itself when tagged, otherwise the defaults, which are always in range |
| ConfigStore.Device.WriteSettings | main.cpp:116-120 | the live settings get the tag and the flash slot becomes equal to them |
| ConfigStore.Device.constructor | main.cpp:62-78 | both records start with every byte 0xff (all flags set) and the hot-key flag clear |
| ConfigStore.LoadKeepsTaggedRecord | main.cpp:88-91 | a tagged slot loads unchanged; an untagged one loads as the defaults; the result is in range iff the slot is untagged or in range |
| ConfigStore.SaveLoadRoundTrip | main.cpp:88-120 | loading what was saved gives back exactly the saved record, and stamping twice equals stamping once |
| ConfigStore.SaveTwice | main.cpp:88-120 | write, read, write leaves the slot as the first write did |
| ConfigStore.ErasedFlashLoadsDefaults | main.cpp:32-113 | with the fallback defaults (640x480, 9600 baud, German table) an erased slot loads with indices 3, 2 and 1, the mouse off and the terminal flags from the defaults |
| ConfigStore.ErasedFlashBaudFollowsBuild | main.cpp:96-97 | an erased slot loads baud index 6 when the build's default is 115200, and index 0 when the default is not in the table |
| KeyInput.NextKey | main.cpp:254-280 | a key takes at least one of the available bytes and is never the hot key; reading waits exactly while nothing, only `ESC` or only `ESC [` has arrived |
| KeyInput.Decode | main.cpp:254-280 | decoding never yields more keys than bytes and never the hot key |
| KeyInput.NextKeyEncode | main.cpp:254-280 | the bytes of each key decode to that key whatever follows |
| KeyInput.EnterIsActivate | main.cpp:280 | a carriage return decodes as a one-byte activation, like a space, and decoding continues after it |
| KeyInput.DecodeEncodeAll | main.cpp:254-280 | decoding the bytes of a key sequence gives back the key sequence |
| SetupMenu.RightActsAsActivate | main.cpp:268-270 | the right arrow does exactly what space or enter does, on every row and on the info screen |
| SetupMenu.AdvanceInRange | main.cpp:271-295 | left and advance keep an index row's index inside its table |
| SetupMenu.AdvanceUndoesStepBack | main.cpp:271-295 | advance after left restores the record |
| SetupMenu.StepBackUndoesAdvance | main.cpp:271-295 | left after advance restores the record |
| SetupMenu.AdvanceStepBackInverse | main.cpp:271-295 | on rows 6-8 left and advance stay in range and are inverse to each other |
| SetupMenu.StepBackDecrements | main.cpp:271-274 | left decrements the row's index, with 0 wrapping to length-1 |
| SetupMenu.AdvanceIncrements | main.cpp:293-295 | advance increments the row's index, with length-1 wrapping to 0 |
| SetupMenu.StepKeepsValid | main.cpp:216-317 | after any key the cursor stays in rows 5-19, the info screen sits on row 5, and both records keep their indices in range |
| SetupMenu.RunKeepsValid | main.cpp:216-317 | the same holds after any key sequence |
| SetupMenu.CursorWraps | main.cpp:262-267 | up from 5 goes to 19 and down from 19 to 5; otherwise up and down move by one row; each undoes the other |
| SetupMenu.DownsCycle | main.cpp:265-267 | n downs move the cursor n rows round the 15 rows and change nothing else |
| SetupMenu.IndexRowEditing | main.cpp:271-295 | on rows 6-8, left decrements modulo the table length and activation advances modulo it; both stay in range; each undoes the other; neither touches live settings or flash |
| SetupMenu.LeftIgnoresOtherRows | main.cpp:271-275 | left on any row other than 6-8 changes nothing |
| SetupMenu.ToggleFlipsFlag | main.cpp:296-304 | toggling a flag row flips that row's flag |
| SetupMenu.ToggleKeepsFlag | main.cpp:296-304 | toggling a flag row leaves every other row's flag as it was |
| SetupMenu.ToggleInvolution | main.cpp:296-304 | toggling the same row twice restores the record |
| SetupMenu.ToggleFlipsOne | main.cpp:296-304 | a toggle flips exactly its own flag; other flags, indices and tag are unchanged |
| SetupMenu.ActivateTogglesOneFlag | main.cpp:280-304 | activating rows 9-17 flips exactly that flag of the working copy; live settings, flash and cursor are unchanged; activating again restores the menu |
| SetupMenu.SaveCommitsAndPersists | main.cpp:305-309 | "save" makes live settings and flash the tagged working copy, keeps the menu open, and what it stored loads back unchanged |
| SetupMenu.ExitCommitsOnly | main.cpp:310-312 | "exit" makes the live settings the working copy, leaves flash alone and returns |
| SetupMenu.EscEscLeavesLive | main.cpp:254-257 | ESC ESC returns with the live settings and flash unchanged |
| SetupMenu.NoActivationNoCommit | main.cpp:254-317 | keys other than space, enter and right never change the live settings or flash |
| SetupMenu.ThreeDownsThenSpace | main.cpp:216-295 | from the start row, three downs and a space advance the keyboard index and change nothing else |
| SetupMenu.InkedIffFieldAgrees | main.cpp:183-239 | a row's marker is green iff the working copy and the live settings hold the same index or flag for that row |
| SetupMenu.AllGreenImpliesAgree | main.cpp:183-239 | all rows green implies that the working copy equals the live settings except for the tag |
| SetupMenu.AgreeImpliesAllGreen | main.cpp:183-239 | a working copy equal to the live settings except for the tag shows every row green |
| SetupMenu.AllGreenIffPendingEqualsLive | main.cpp:183-239 | all rows are green iff the pending settings equal the live ones except for the tag |
| SetupMenu.RunOsm | main.cpp:200-317 | the imperative menu loop leaves live settings, flash and hot-key flag as `Run` does, and returns iff `Run` has returned |
| SerialBridge.Iteration | main.cpp:340-344 | a control byte sets the pause flag and is not forwarded; any other byte is appended to the terminal's input; a pass writes only when not paused; queued bytes are conserved; every pass either writes or runs the state machines |
| SerialBridge.WritesExactlyWhenReady | main.cpp:343-344 | a pass writes iff the bridge is not paused and something is queued, and it writes the oldest queued byte |
| SerialBridge.DataBytes | main.cpp:341-342 | the bytes forwarded to the terminal never include 17 or 19 |
| SerialBridge.ForwardsDataInOrder | main.cpp:338-345 | the terminal receives exactly the non-control bytes, once each and in arrival order |
| SerialBridge.OutgoingConserved | main.cpp:343 | what was sent followed by what is still queued equals what was queued, in order |
| SerialBridge.WritesOrTicks | main.cpp:343-344 | bytes written plus state-machine runs equals the number of passes, so `run_sm` runs on every pass that does not write |
| SerialBridge.PauseFollowsLastControl | main.cpp:341 | after the loop the bridge is paused iff the last control byte received was XOFF (unchanged if none arrived) |
| SerialBridge.PausedWritesNothing | main.cpp:341-344 | while paused and without XON, nothing is written and every pass runs the state machines |
| SerialBridge.XoffStopsOutput | main.cpp:341-344 | after XOFF, nothing is written until XON arrives |
| SerialBridge.ResumeDrains | main.cpp:343 | when not paused, idle passes send the queued bytes one per pass, oldest first |
| SerialBridge.HotKeyEndsRun | main.cpp:338 | the loop ends at the hot key and ignores what comes after it |
| SerialBridge.Terminal.Configure | main.cpp:321-328 | the terminal's eight defaults become the settings' flags |
| SerialBridge.Pass | main.cpp:340-344 | one imperative pass over the terminal equals `Iteration` |
| SerialBridge.Shuttle | main.cpp:336-345 | the imperative loop equals `Run` from an unpaused state, or does nothing when the hot-key flag is already raised; the flag ends raised iff it was raised or a hot key arrived |
| SerialBridge.RunAnsiterm | main.cpp:319-345 | configures the terminal defaults from the live settings, then behaves as `Shuttle` |
| Supervisor.PlanSession | main.cpp:371-386 | keyboard table and baud rate come from the settings; after an error: 320x240, no mouse plane, setup menu with the error as banner; otherwise the settings' mode, a mouse plane iff enabled, pass-through |
| Supervisor.AfterSession | main.cpp:388-403 | after a normal session the error is "ctrl-alt-del pressed" iff the flag was set, and the flag is cleared; after a fault the error is the fault's message and the flag is kept |
| Supervisor.ErrorForcesSafeSetup | main.cpp:375-381 | any error gives 320x240, the frame buffer alone, and the setup menu, whatever the settings say |
| Supervisor.FaultEntersSafeSetup | main.cpp:375-403 | a fault is followed by the safe setup session showing its message, with the flag unchanged |
| Supervisor.NormalEndDecidesNext | main.cpp:375-390 | a normal end with the flag set leads to safe setup with the hot-key banner; without it, to pass-through in the settings' mode with a mouse iff enabled; the flag is cleared either way |
| Supervisor.RunSession | main.cpp:369-403 | a fault records its message; a pass-through session keeps settings and flash; a session that ends normally clears the flag; the live indices stay in range |
| Supervisor.Sessions | main.cpp:367-406 | the first plan is made from the starting error and settings; there are no more plans than rounds; the live indices stay in range |
| Supervisor.HotKeyEntersSafeSetup | main.cpp:338-390 | a hot key in a pass-through session leads to the safe setup session with the hot-key banner, on the same keyboard table and baud rate |
| Supervisor.FaultThenSafeSetup | main.cpp:375-403 | a fault in any session is followed by the safe setup session showing its message, on the same keyboard table |
| Supervisor.SetupExitResumesPassThrough | main.cpp:375-390 | leaving setup by "exit" or ESC ESC leads to pass-through in the video mode and with the mouse choice of the settings left live |
| Supervisor.RunRound | main.cpp:369-403 | one imperative pass of the loop body equals `RunSession` |
| Supervisor.Supervise | main.cpp:365-406 | the imperative loop returns the plans, error, settings, flash and flag of `Sessions` |
| Supervisor.RunFirmware | main.cpp:353-406 | reading the settings and then running the loop gives `Sessions` started from the loaded settings with no error |

## Left out

- `print_system_info` and `print_heap_free` (main.cpp:122-174): they only print hardware and allocator state.
- Video, audio, USB and UART calls are not modelled: `Pixmap`, `FrameBuffer`, `MousePointer`, `startVideo`/`stopVideo`, `setHidKeyTranslationTable`, `uart_set_baudrate`, `sysclockChanged` and `Audio::beep`. Their effects cannot be observed here; only the chosen mode, planes, keyboard table and baud rate are kept, in `SessionPlan`.
- The escape strings the menu and the terminal print, the banner text and the terminal display-mode changes of `run_osm` (main.cpp:207-214, 222-244) are not modelled. Only the green/red decision of `inked` is.
- `run_sm` (main.cpp:176-181) is reduced to a counter of runs in the bridge. In the menu it is not modelled at all.
- The 2-second wait for the keyboard to mount (main.cpp:361) is timing only.
- The `AnsiTerm` terminal is not part of this model. It is reduced to the input it was given and its queue of outgoing bytes. The responses it generates itself enter that queue only as typed bytes, and `reset(true)` is not modelled.
- SetupMenu.RunOsm: the menu reads whole keys. The hot key cannot arrive between the bytes of one escape sequence, where the source waits without checking the flag (main.cpp:256, 259).
- SetupMenu.RunOsm: bytes typed ahead and swallowed after the info screen (main.cpp:290) are not modelled. The info screen consumes one key.
- SetupMenu.RunOsm and SerialBridge.Shuttle: an input that runs out ends the loop. The firmware would keep waiting instead, and the model reports this through `finished` and `Cycle.ended`.
- Supervisor.RunSession: a fault is raised while the session is set up, before it runs. A fault thrown from inside a running session, after it has changed the settings, is not modelled.
- The three `catch` clauses (main.cpp:392-403) are one `Fault(msg)` outcome. The message of the untyped clause is whatever `UNKNOWN_ERROR` holds, which is not part of this model.
- Supervisor.RunFirmware: requires a tagged flash record to hold in-range indices. `read_settings` does not check this (main.cpp:91), and `main` would index past its tables otherwise (main.cpp:371-375).
- Supervisor.PlanSession: requires the live indices to be in range, for the same reason.
- The values of the `ANSITERM_DEFAULT_*` constants are not part of this model. They are the `BuildDefaults` parameter.
- DEFAULT_VGA_MODE, PICO_DEFAULT_UART_BAUD_RATE and USB_DEFAULT_KEYTABLE take the values of main.cpp:32-46 only when the build does not define them; the Pico SDK may set the UART default itself (115200 is common). They are the `BuildDefaults` parameter, and `ConfigStore.ErasedFlashLoadsDefaults` covers only the fallback values.
- ConfigStore.Defaults: the video mode is found by comparing resolutions, where the source compares the addresses of mode descriptors; a default whose resolution is not in the table gives index 0 in both, but a descriptor outside the table that shares a table entry's resolution gives 0 in the source and that entry's index in the model.
