# Motor test stand: console and acquisition node

A model of the two Arduino programs that run a motor thrust stand, and of the command protocol between them.

- The **console** (the bus master) does four things:
  - It reads the test parameters and the two known calibration loads from a keypad.
  - It sends one-letter command frames to the acquisition node.
  - It ramps the motor's speed controller up in timed steps and back down.
  - It lets an emergency-stop button pre-empt everything.
- The **acquisition node** (the bus slave) does four things:
  - It takes the frames and raises one pending flag per command.
  - It calibrates while taring.
  - It counts tachometer pulses into a one-second RPM window.
  - It logs rate-limited rows of readings to a CSV file.

Each node is an immutable record of the program's global variables. The interrupt handlers and one pass of each main loop are pure functions of that record. The console's pass is modelled with the corrected ENTER, BACK and redraw of the findings below; the keys as written are modelled separately, in `Entry`.

- Hardware writes become outputs:
  - bus frames and servo pulse widths on the console;
  - opened files, appended lines and rows, closed files and calibrations on the node.
- The key pressed and the clock are inputs.
- Sensor readings are opaque numbers.
- Interrupts are events between passes.

Modules:

| module | file | what it holds |
|---|---|---|
| `Text` | text.dfy | digits, decimal values, `String.toInt` (C `atol`) |
| `Protocol` | protocol.dfy | frame tags, encoder and decoder, the receive byte loop |
| `Csv` | csv.dfy | the `", "`-separated line format and the header row |
| `Acquisition` | acquisition.dfy | the node: receive handler, pulse latch, RPM window, row write, loop pass, stop |
| `Entry` | entry.dfy | keypad fields with a cursor, shared by the parameter and tare screens |
| `Throttle` | throttle.dfy | ceiling clamp, Arduino `map`, ramp-up and ramp-down |
| `Console` | console.dfy | the console: reset, tare mode, sending, ramping, abort, loop pass, safety over any run |
| `Session` | session.dfy | both nodes together: what the console's frames make the node do |

## Model

| member | source | states |
|---|---|---|
| Text.ToInt | motor_stand_master/src/motor_stand_master.cpp:304-306 | on a string of digits, `toInt` is exactly that string's decimal value; on any string its magnitude stays below 10 to the string's length |
| Text.DecimalValue | motor_stand_slave/src/motor_stand_slave.cpp:277-278 | a string of n digits denotes a natural number below 10^n |
| Text.DigitPrefix | motor_stand_slave/src/motor_stand_slave.cpp:292 | the number read is the longest all-digit prefix, which stops at the first non-digit |
| Text.SkipSpaces | motor_stand_slave/src/motor_stand_slave.cpp:292 | leading white space is dropped and nothing else is |
| Text.DigitPrefixOfDigits | motor_stand_master/src/motor_stand_master.cpp:306 | a keypad string of digits is read whole, with no white space skipped |
| Protocol.Encode | motor_stand_master/src/motor_stand_master.cpp:129-142 | a frame is the tag followed by the payload, one byte longer than the payload, and decoding it gives back exactly the tag and payload sent |
| Protocol.Decode | motor_stand_slave/src/motor_stand_slave.cpp:79-86 | the first byte is the tag and the rest, in order, is the payload, so every non-empty frame is the encoding of its decoding; an empty frame reads as the tag 0xFF with an empty payload |
| Protocol.ReadFrame | motor_stand_slave/src/motor_stand_slave.cpp:80-85 | the byte-by-byte receive loop computes the same tag and payload as the decoder |
| Csv.SplitJoin | motor_stand_slave/src/motor_stand_slave.cpp:347-357 | fields joined with `", "` split back into the same fields when none holds a comma |
| Csv.HeaderColumns | motor_stand_slave/src/motor_stand_slave.cpp:288 | the header row reads back as the six columns Current, Voltage, Torque, Thrust, RPM, Airspeed |
| Acquisition.Reset | motor_stand_slave/src/motor_stand_slave.cpp:233-247 | the reset lowers every command flag and the pulse latch, clears the payload and sets RPM to 0; it keeps the marker count, the pulse count, the calibration payloads, the window start and the last-row time |
| Acquisition.PowerOn | motor_stand_slave/src/motor_stand_slave.cpp:41-45 | after power-on no flag is raised, no file is open and the marker count is 1 |
| Acquisition.Receive | motor_stand_slave/src/motor_stand_slave.cpp:79-112 | the payload of every frame replaces `signal`; no frame touches markers, RPM, pulse count, latch, clocks or the file |
| Acquisition.DispatchFlag | motor_stand_slave/src/motor_stand_slave.cpp:87-104 | 'f', 'm', 'z', 'b' and 't' each raise exactly their own flag and lower none; all other data stay as they were |
| Acquisition.DispatchEnd | motor_stand_slave/src/motor_stand_slave.cpp:105-108 | 'e' raises `stop`, lowers `reading_on` and changes no other flag or data |
| Acquisition.DispatchPayload | motor_stand_slave/src/motor_stand_slave.cpp:93-98 | 'q' and 'r' copy the payload into the known torque or thrust text and raise no flag |
| Acquisition.DispatchUnknown | motor_stand_slave/src/motor_stand_slave.cpp:79-111 | any other tag changes only `signal` |
| Acquisition.Count | motor_stand_slave/src/motor_stand_slave.cpp:114-116 | the tachometer interrupt sets the pulse latch and changes nothing else |
| Acquisition.Increment | motor_stand_slave/src/motor_stand_slave.cpp:118-123 | one pulse is counted exactly when the latch was set; the latch ends clear; nothing else changes |
| Acquisition.WindowRpm | motor_stand_slave/src/motor_stand_slave.cpp:301 | with markers not zero, RPM times markers equals pulses times 60; with no markers it is infinite, or NaN when there were no pulses |
| Acquisition.CloseWindow | motor_stand_slave/src/motor_stand_slave.cpp:300-304 | once a second has passed, RPM is recomputed, the count restarts and the window restarts now; before that nothing changes |
| Acquisition.RowLine | motor_stand_slave/src/motor_stand_slave.cpp:347-357 | the line written for a row, read back by cutting at the commas, gives the six rendered fields in header order, whenever no rendered number holds a comma |
| Acquisition.RowLineColumns | motor_stand_slave/src/motor_stand_slave.cpp:347-357 | a row line splits back into six fields, current, voltage, torque, thrust, RPM and airspeed in that order |
| Acquisition.WriteRow | motor_stand_slave/src/motor_stand_slave.cpp:306-332 | a row is written if and only if both load cells have a sample and more than the print interval has passed; it is then the only effect and holds exactly this tick's current, voltage, torque, thrust and airspeed with the node's current RPM, and the last-row time is restamped |
| Acquisition.Acquire | motor_stand_slave/src/motor_stand_slave.cpp:297-362 | window, row and latch together: the effect on RPM, window start and count with and without a closed window; a row is written if and only if both load cells have a sample and the print interval has passed, and it is then the only effect, holding the tick's readings and the RPM this pass computed |
| Acquisition.FileName | motor_stand_slave/src/motor_stand_slave.cpp:286 | the file is named `Test_`, then the payload, then `.csv` |
| Acquisition.HandleCommands | motor_stand_slave/src/motor_stand_slave.cpp:285-294 | a pending file command is handled before a pending marker command and each is cleared when handled; a new file gets the header row first |
| Acquisition.LoopAsWritten | motor_stand_slave/src/motor_stand_slave.cpp:274-370 | while taring the only effect is calibration once `zero` is set, which then lowers both flags; at most one pulse per pass, counted only with a file open and reading on; rows only past the interval and only while logging |
| Acquisition.Loop | motor_stand_slave/src/motor_stand_slave.cpp:274-370 | the pass with the corrected stop: the same effects and the same state as `LoopAsWritten` except for the stop flag, everything `LoopAsWritten` promises, and outside taring no stop survives a pass with no file open |
| Acquisition.RowsSpaced | motor_stand_slave/src/motor_stand_slave.cpp:329-332 | over any run of frames, edges and passes, consecutive rows are more than the print interval apart |
| Acquisition.StopClosesSession | motor_stand_slave/src/motor_stand_slave.cpp:364-367 | with a file open, reading off and a stop pending, the pass closes the file and runs the reset, and nothing else |
| Acquisition.FileBeforeMarker | motor_stand_slave/src/motor_stand_slave.cpp:285-294 | with a file and a marker command both pending, the file opens with its header first and the marker count is untouched in that pass |
| Acquisition.PulsesCounted | motor_stand_slave/src/motor_stand_slave.cpp:296-297 | while logging within one window, one pulse per pass is counted and the node keeps logging |
| Acquisition.LoggingPassWritesRow | motor_stand_slave/src/motor_stand_slave.cpp:296-362 | a pass of a logging node that is due for a row writes exactly that row, with the tick's readings and the RPM the pass leaves |
| Acquisition.FortyPulsesLogged | motor_stand_slave/src/motor_stand_slave.cpp:300-357 | the pass that closes a window of forty pulses with four markers, when due for a row, logs 600 RPM |
| Acquisition.FortyPulsesFourMarkers | motor_stand_slave/src/motor_stand_slave.cpp:300-304 | forty pulses with four markers, then a pass after the window ends, give 600 RPM and a fresh count |
| Acquisition.StaleStopClosesNextSession | motor_stand_slave/src/motor_stand_slave.cpp:105-108 | as written, an 'e' received with no file open makes the next file command open a file that the same pass closes |
| Acquisition.StopWithoutFileIsDiscarded | motor_stand_slave/src/motor_stand_slave.cpp:364-367 | with the corrected stop, a stop pending with no file open is dropped and nothing else happens |
| Acquisition.SessionSurvivesStaleStop | motor_stand_slave/src/motor_stand_slave.cpp:285-296 | with the corrected stop, the same frames leave the new file open with its header written |
| Entry.Blank | motor_stand_master/src/motor_stand_master.cpp:322-326 | every field is empty and the cursor is on the first field |
| Entry.AllEnteredScan | motor_stand_master/src/motor_stand_master.cpp:234-250 | the early-return scan answers true exactly when no field is empty |
| Entry.TypeDigit | motor_stand_master/src/motor_stand_master.cpp:402-428 | a digit is appended only while the input is below the field's limit, and is ignored otherwise |
| Entry.CommitAsWritten | motor_stand_master/src/motor_stand_master.cpp:198-209 | as written, ENTER writes out of bounds exactly when the cursor is off the fields |
| Entry.Commit | motor_stand_master/src/motor_stand_master.cpp:198-200 | corrected ENTER: on a field it stores the input there, changes no other field and advances by exactly one; past the last field it is ignored |
| Entry.RedrawAsWritten | motor_stand_master/src/motor_stand_master.cpp:92-121 | as written, the redraw reads out of bounds exactly when the cursor is off the fields, and otherwise shows the field under the cursor with its stored value |
| Entry.Redraw | motor_stand_master/src/motor_stand_master.cpp:198-209 | corrected redraw: the same as written on a field; off the fields it shows the prompt to send instead of reading past the arrays |
| Entry.RetreatAsWritten | motor_stand_master/src/motor_stand_master.cpp:211-214 | as written, BACK moves the cursor back one with no lower bound; its redraw reads out of bounds exactly when the new cursor is off the fields, and otherwise clears the input and keeps every stored value |
| Entry.Retreat | motor_stand_master/src/motor_stand_master.cpp:229-232 | corrected BACK: the same as written from every field after the first and from just past the last; on the first field the cursor stays; the input is cleared and no stored value changes |
| Entry.PressAsWritten | motor_stand_master/src/motor_stand_master.cpp:365-429 | as written, a key goes out of bounds exactly for ENTER with input off the fields or BACK whose new cursor is off the fields; only ENTER changes a stored value, and a digit changes only the input |
| Entry.Press | motor_stand_master/src/motor_stand_master.cpp:365-376 | every key keeps the entry valid, with the cursor on the fields and every field and input within its digit limit; it agrees with the press as written wherever that stays in bounds |
| Entry.PressAllValid | motor_stand_master/src/motor_stand_master.cpp:392-429 | any sequence of keys keeps the entry valid |
| Entry.NavigationKeys | motor_stand_master/src/motor_stand_master.cpp:393-397 | ENTER does nothing on empty input, and otherwise stores and advances by one; BACK never changes a stored value |
| Entry.ParamOverrun | motor_stand_master/src/motor_stand_master.cpp:396-397 | as written, typing and entering four parameters and pressing ENTER once more writes parameter index 4 |
| Entry.TareUnderrun | motor_stand_master/src/motor_stand_master.cpp:367-375 | as written, BACK on the first tare field reads tare index -1 in its redraw, and a digit and ENTER from there write tare index -1 |
| Entry.ParamCursorStuck | motor_stand_master/src/motor_stand_master.cpp:392-429 | as written, once the parameter cursor is at -1 no key brings it back: each key leaves the entry unchanged or reads further out of bounds |
| Entry.CorrectedKeysStayInBounds | motor_stand_master/src/motor_stand_master.cpp:365-397 | the corrected keys on both of those sequences keep the entry valid |
| Throttle.ClampCeiling | motor_stand_master/src/motor_stand_master.cpp:304 | the ceiling lies in [1000, 2000], equals the typed value inside that range and the nearer end outside it |
| Throttle.TruncDiv | motor_stand_master/src/motor_stand_master.cpp:307 | C's division: the quotient rounds toward zero for both signs of the dividend |
| Throttle.ArduinoMap | motor_stand_master/src/motor_stand_master.cpp:307 | Arduino's `map` sends the low end of the input range to the low end of the output range, the high end to the high end, and a value inside an increasing input range into the output range |
| Throttle.PwmIncrement | motor_stand_master/src/motor_stand_master.cpp:306-307 | the step is the largest whose hundredfold does not exceed increment times the span; for 0..100 percent it lies in [0, span] |
| Throttle.Ascending | motor_stand_master/src/motor_stand_master.cpp:168-171 | the widths written are lo, lo+1, ..., hi, and none when lo > hi |
| Throttle.Descending | motor_stand_master/src/motor_stand_master.cpp:179-182 | the widths written are hi, hi-1, ..., lo, and none when lo > hi |
| Throttle.ThrottleUp | motor_stand_master/src/motor_stand_master.cpp:159-176 | before the interval nothing happens; at or over the ceiling the ramp is done; otherwise every width up to the clamped step is written and the width becomes the last one |
| Throttle.ThrottleUpBounds | motor_stand_master/src/motor_stand_master.cpp:159-176 | the width never falls nor passes the ceiling, widths are written in unit steps ending at the new width, and `done` rises only after an interval at the ceiling |
| Throttle.RampUpSweep | motor_stand_master/src/motor_stand_master.cpp:159-176 | over any series of checks the widths written are one non-decreasing sweep from the starting width and never above the ceiling |
| Throttle.RampDownSweep | motor_stand_master/src/motor_stand_master.cpp:178-182 | the ramp-down starts at the current width, goes down one at a time and ends on 1000 |
| Console.Reset | motor_stand_master/src/motor_stand_master.cpp:318-358 | the reset clears the parameters, cursor, input and motor flags, sets the width to 1000 and writes it; it enters tare mode and sends 't' unless taring was done; the tare values survive; the invariant is kept |
| Console.PowerOn | motor_stand_master/src/motor_stand_master.cpp:89 | power-on starts untared and in tare mode, writing 1000 and then 't', in a state that meets the invariant |
| Console.Interrupt | motor_stand_master/src/motor_stand_master.cpp:186-188 | the stop button's handler raises the flag and changes nothing else |
| Console.ThrottleDown | motor_stand_master/src/motor_stand_master.cpp:152-157 | the ramp-down writes the descending sweep, then 'e', then what the reset writes, and ends in the reset state |
| Console.CheckInterrupt | motor_stand_master/src/motor_stand_master.cpp:190-196 | a raised stop flag is lowered and the ramp comes down; otherwise nothing happens |
| Console.RampStep | motor_stand_master/src/motor_stand_master.cpp:383-385 | a ramp-up check writes exactly the widths the ramp produces; with the motor running the invariant is kept |
| Console.EnterTareMode | motor_stand_master/src/motor_stand_master.cpp:274-280 | tare mode puts the cursor on the first tare field, clears the taring status and the input, keeps the tare values and sends 't' |
| Console.SendTareInputs | motor_stand_master/src/motor_stand_master.cpp:282-298 | the known torque, the known thrust and the zero command are sent in that order; taring is then done and the input cleared; from a state meeting the invariant the invariant is kept and every output is well formed |
| Console.SendTareInputsAsWritten | motor_stand_master/src/motor_stand_master.cpp:297 | as written, the closing redraw of the home screen reads out of bounds exactly when the parameter cursor is off the fields, and otherwise the calibration is the modelled one |
| Console.SendInputs | motor_stand_master/src/motor_stand_master.cpp:300-313 | 'f' with the test number, 'm' with the markers and 'b' are sent in that order; the ceiling is the clamped maximum, the step the mapped increment, the motor starts and nothing else changes |
| Console.TareKeyPress | motor_stand_master/src/motor_stand_master.cpp:365-381 | SEND with both loads entered sends them; any other key is an entry key on the tare fields, with the corrected ENTER and BACK, and sends nothing |
| Console.ParamKeyPress | motor_stand_master/src/motor_stand_master.cpp:392-433 | SEND with all four parameters entered starts the test; the tare key enters tare mode only while the motor is stopped; other keys are entry keys, with the corrected ENTER and BACK, and send nothing |
| Console.LoopStep | motor_stand_master/src/motor_stand_master.cpp:361-435 | with the corrected ENTER and BACK, every pass keeps the invariant and writes only widths in [1000, 2000] and well-formed frames of at most four bytes |
| Console.RunningPassRamps | motor_stand_master/src/motor_stand_master.cpp:383-389 | a pass with the motor running starts its output with the widths of the ramp-up check; if the ramp is then done, the same pass sweeps down to 1000, sends 'e' and stops the motor at 1000, and otherwise the motor keeps running |
| Console.AbortPreempts | motor_stand_master/src/motor_stand_master.cpp:362 | after the stop button, the next pass begins with the full ramp-down from the current width and 'e', whatever key is pressed, and leaves the motor stopped at 1000 with the parameters cleared |
| Console.TareKeyIgnoredWhileRunning | motor_stand_master/src/motor_stand_master.cpp:430 | the tare key does nothing while the motor runs |
| Console.MotorStartsOnlyBySend | motor_stand_master/src/motor_stand_master.cpp:399-400 | a stopped motor starts only on SEND, on the parameter screen, with all four parameters entered, and not in a pass that begins with a ramp-down |
| Console.RunSafe | motor_stand_master/src/motor_stand_master.cpp:361-435 | with the corrected ENTER and BACK, under any keys, times and stop-button presses, the invariant holds and every output is a width in [1000, 2000] or a well-formed frame |
| Console.TareReturnReadsPastFields | motor_stand_master/src/motor_stand_master.cpp:274-297 | as written, after the fourth ENTER (the parameter cursor past the last field) the tare key leaves the parameter cursor at 4, and SEND after calibration redraws the home screen at parameter index 4 |
| Console.TareReturnStaysInFields | motor_stand_master/src/motor_stand_master.cpp:297 | with the corrected redraw, the home screen after calibration shows an existing parameter field, or the prompt to send when all four are entered |
| Console.PowerOnRunSafe | motor_stand_master/src/motor_stand_master.cpp:318-358 | with the corrected ENTER and BACK, the same holds for every run from power-on |
| Session.TareSession | motor_stand_master/src/motor_stand_master.cpp:282-298 | a taring node that receives the console's three calibration frames calibrates on its next pass with exactly the two typed loads and leaves taring |
| Session.StartSequence | motor_stand_slave/src/motor_stand_slave.cpp:285-294 | file frame, pass, marker frame, pass, begin frame: the file named after the test number opens with its header, the marker count is taken and the node is logging |
| Session.TestSession | motor_stand_master/src/motor_stand_master.cpp:300-313 | with a node pass after the file and after the marker frame, the console's test start opens the typed test's file and sets the typed marker count, and the node ends up logging |
| Session.CoalescedMarkerIsLost | motor_stand_slave/src/motor_stand_slave.cpp:291-293 | when the begin frame arrives before a pass has read the marker frame, the marker count becomes 0 |
| Session.EndSession | motor_stand_master/src/motor_stand_master.cpp:152-157 | the 'e' that follows the console's ramp-down makes a logging node close the file and reset its flags on the next pass |

## Left out

- Floating-point sensor maths is not modelled. This covers the calibration averages and scale factors (motor_stand_slave/src/motor_stand_slave.cpp:149-228) and the current, voltage and airspeed conversions (motor_stand_slave/src/motor_stand_slave.cpp:309-327). Readings are opaque numbers, and the calibration is the effect `Calibrate(torque, thrust)`.
- The hardware is not modelled: bus transport, SD card, load-cell library, serial printing, LCD drawing, keypad scanning and the servo library. Each becomes an emitted frame, file effect or pulse width. A failed `SD.open` is the input `openOk`.
- The busy-wait halts in the node's start-up (motor_stand_slave/src/motor_stand_slave.cpp:138,143,264) and the load-cell and bus re-initialisation that `setup` repeats are hardware start-up. Only the flag reset of `setup` is modelled.
- `free_memory` (motor_stand_slave/src/motor_stand_slave.cpp:268-272) is heap pointer arithmetic with no effect on behaviour.
- Time is one input per pass. The `delay` calls inside a pass are not modelled: the settle delay between widths, the pauses between frames, and the 5-second wait after 'z'. Neither is `millis` wrap-around.
- Interrupts are events between passes. An edge or a frame in the middle of a pass is not modelled.
- How frames and passes interleave is a parameter of each session lemma. The bus timing that decides it is not modelled.
- `currthrottle`, `throttling_up` and `file_num` only feed the display and serial output, or are never read, so they are not modelled.
- Text.ToInt: does not model the overflow of `long` for inputs of ten or more digits. The keypad allows at most four.
- The 32-byte bus buffer is not modelled. No console frame exceeds four bytes (`Console.OutputsOk`).
- The tags 'a' and 'p' and persistent calibration storage do not appear in the code.
- The header files motor_stand_slave/include/motor_stand_slave_definitions.h and motor_stand_master/include/motor_stand_master_definitions.h are not part of this model. They hold declarations that differ from the .cpp files: the slave header gives a print interval of 100 ms where the .cpp uses 300. The .cpp values are used.
- Console.TareKeyPress: uses the corrected `Entry.Press`. As written (`Entry.PressAsWritten`), BACK on the first tare field and ENTER past the last one leave the fields (`Entry.TareUnderrun`, Findings), so nothing is promised for the tare keys as written.
- Console.ParamKeyPress: uses the corrected `Entry.Press`. As written, ENTER past the last parameter and BACK on the first leave the fields (`Entry.ParamOverrun`, `Entry.ParamCursorStuck`, Findings), so nothing is promised for the parameter keys as written.
- Console.LoopStep: the invariant and the output bounds are proved for the pass with the corrected ENTER and BACK only; with the keys as written (`Entry.PressAsWritten`) the cursor can leave the fields and the invariant fails.
- Console.RunSafe: holds for runs with the corrected ENTER and BACK only, for the reason given for `Console.LoopStep`.
- Console.PowerOnRunSafe: holds for runs with the corrected ENTER and BACK only, for the reason given for `Console.LoopStep`.
- Console.SendTareInputs: the home-screen redraw at the end is modelled only in `Console.SendTareInputsAsWritten` and `Entry.Redraw`; the console state does not record what the screen shows.
- Rows are `AppendRow(row)` effects with numeric fields. The number formatting of `print` is the `show` parameter of `Acquisition.RowLine`.

## Findings

| source | as written | input that shows it | evidently intended | confidence | as-written member | corrected member |
|---|---|---|---|---|---|---|
| motor_stand_master/src/motor_stand_master.cpp:198-209 | after the fourth parameter the cursor sits on index 4 and the input is not cleared, so one more ENTER stores into `parameter_values[4]`, past the end of the array. The tare screen does the same at index 2 | keys `1#1#1#1##` from a blank screen | ENTER past the last field does nothing | high (not executed) | Entry.ParamOverrun | Entry.Commit |
| motor_stand_master/src/motor_stand_master.cpp:229-232 | BACK on the first tare field moves the cursor to -1, and its redraw already reads `tare_names[-1]` and `tare_values[-1]` (line 115). Tare digits are accepted at any index, so ENTER then stores into `tare_values[-1]`. The parameter screen's BACK also reaches -1 and reads `parameter_names[-1]` (line 100); there digits are ignored, so no key returns the cursor to the fields until the next reset | key `D` on a fresh tare screen; then `5#` | BACK on the first field stays there | high (not executed) | Entry.TareUnderrun | Entry.Retreat |
| motor_stand_master/src/motor_stand_master.cpp:274-297 | tare mode does not move the parameter cursor. If the tare key is pressed after the fourth ENTER, with the parameter cursor past the last field, the cursor is at 4, and the `lcd_home` that ends calibration reads `parameter_names[4]` and `parameter_values[4]` | enter four parameters, press `B`, enter both loads, press `*` | the home screen shows a field that exists, or the prompt to send | high (not executed) | Console.TareReturnReadsPastFields | Entry.Redraw |
| motor_stand_slave/src/motor_stand_slave.cpp:105-108 | an 'e' received with no file open (an emergency stop before a test, or during taring) leaves `stop` raised. The next file command opens a file and the same pass closes it, because reading is still off, so that test logs nothing | frames `e`, then `f12` with a pass after each | a stop with no session to close is dropped | medium (not executed) | Acquisition.StaleStopClosesNextSession | Acquisition.StopWithoutFileIsDiscarded |
