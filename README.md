# Wii Balance Board AlphaBot — a verified model of the control core

The system drives an AlphaBot robot from a Nintendo Wii Balance Board. The
model covers four parts of its core.

- **Balance-board clients.** There are three of them:
  - `src/wii_balance/WiiBoard.py`, the main client;
  - `src/wii-balance/wiiTasks.py`, a variant with blocking sockets and no length guards;
  - `src/wii-balance/wiiBoard.py`, the oldest variant, with a hook-calling `loop`.

  Each one finds the board by its Bluetooth name and opens two L2CAP sockets.
  It sends the calibration handshake and reads two calibration blocks into a
  3x4 matrix. After that it decodes status, button and mass reports from the
  input stream.
- **Periodic task schedulers.**
  - `kernel.c` keeps a fixed 20-slot table.
  - `src/kernel.py` keeps a growable list.
- **Motion decision** (`src/alphabot/Alphabot.py`). Four corner masses become
  one active axis, a direction and a power level. `drive` turns these into
  exactly one of five motor actions.

Modules:

- **Shared protocol.** `Wrappers` holds Option, Result and the Python exceptions.
  `WiiProtocol` holds the wire format: commands, slicing, calibration blocks,
  the weight curve and the button edge.
- **`WiiSession`.** The main client as a state machine over values. One `recv`
  outcome is one step. A reading call is a run over a script of outcomes.
- **`WiiClient.WiiBoard`.** The main client as a class. Its methods are proved
  against `WiiSession`.
- **`WiiTasks`.** The `wiiTasks.py` variant, as functions and as a class.
- **`WiiLoop`.** The `wiiBoard.py` variant, as functions and as a class. Its `check_button` is modelled as written, so its loop never reports a button press (see Findings).
- **`KernelC`.** The C scheduler table, as a class over an array.
- **`KernelPy`.** The Python scheduler list, as a class over a sequence.
- **`AlphabotMotion`.** The robot's motion logic, as a class.

Outside effects are parameters:

- the Bluetooth scan is a list of `Device(address, name)`;
- each `recv` is one `RecvOutcome` of a script: data, an empty read, EWOULDBLOCK, or another socket error;
- control-socket writes are appended to a `sent` log;
- the oldest client's `on_*` hook calls are appended to a `notified` log;
- the scheduler's task calls are appended to an `invoked` log;
- GPIO and PWM writes are a `Motors` record.

## Model

| member | source | states |
|---|---|---|
| WiiProtocol.Framed | src/wii_balance/WiiBoard.py:444-446 | a write is `0x52` followed by the concatenated arguments |
| WiiProtocol.ReadRegisterCmd | src/wii_balance/WiiBoard.py:136 | the calibration read request is `52 17 04 A4 00 24 00 18` |
| WiiProtocol.RegisterCmd | src/wii_balance/WiiBoard.py:141 | the extension register write is `52 16 04 A4 00 40 00` |
| WiiProtocol.StatusCmd | src/wii_balance/WiiBoard.py:453-454 | the status request is `52 15 00` |
| WiiProtocol.LightCmd | src/wii_balance/WiiBoard.py:451-452 | the light command is `52 11 10` when on and `52 11 00` when off |
| WiiProtocol.ReportingCmd | src/wii_balance/WiiBoard.py:447-450 | the reporting command is `52 12 mode extension` |
| WiiProtocol.CalibrationRequestBytes | src/wii_balance/WiiBoard.py:131-145 | `calibrate` writes its four frames in order; the status reply writes `52 12 04 32` then `52 11 10` |
| WiiProtocol.Matches | src/wii_balance/WiiBoard.py:84 | the filtered scan is no longer than the scan |
| WiiProtocol.MatchesMembers | src/wii_balance/WiiBoard.py:84 | an address is found exactly when some scanned device has it and a name with the prefix |
| WiiProtocol.MatchesAppend | src/wii-balance/wiiBoard.py:55-59 | filtering distributes over concatenated scans, keeping scan order |
| WiiProtocol.MatchesHead | src/wii_balance/WiiBoard.py:84-89 | the chosen board is the first device with the prefix; nothing is found exactly when no name has it |
| WiiProtocol.PySlice | src/wii_balance/WiiBoard.py:301 | a Python slice has length `min(j,len) - min(i,len)` and never fails |
| WiiProtocol.PySliceOfSlice | src/wii_balance/WiiBoard.py:301-307 | slicing a slice is one slice of the original, clamped to the first one's bounds |
| WiiProtocol.BigEndian | src/wii_balance/WiiBoard.py:376 | `int.from_bytes(b, 'big')` is below `256^len(b)` |
| WiiProtocol.BigEndianShort | src/wii_balance/WiiBoard.py:373-376 | a 0-, 1- or 2-byte raw value decodes to 0, `b0` or `256*b0 + b1` |
| WiiProtocol.Pairs | src/wii-balance/wiiBoard.py:49-53 | `join_packet_bytes` and the `cal` lambda give exactly four slices |
| WiiProtocol.PairsRoundTrip | src/wii_balance/WiiBoard.py:302 | the four 2-byte slices concatenate back to the first 8 bytes; slice `k` has length `min(2, len-2k)` |
| WiiProtocol.RowOf | src/wii_balance/WiiBoard.py:302-304 | a calibration row is the four slices of the data, cell by cell |
| WiiProtocol.BlockLength | src/wii_balance/WiiBoard.py:299 | `int(data[4]/16 + 1)` lies in 1..16 and is 16 exactly when `data[4] >= 0xF0` |
| WiiProtocol.ReadBlock | src/wii_balance/WiiBoard.py:297-309 | a full block leaves the third row a placeholder; a short block completes the matrix and keeps rows 0 and 1 |
| WiiProtocol.FirstBlockRows | src/wii_balance/WiiBoard.py:303-305 | the first block's rows are bytes 7..15 and 15..23 of the frame |
| WiiProtocol.LastBlockRow | src/wii_balance/WiiBoard.py:306-309 | the last block's row is bytes 7..7+min(8, length) of the frame |
| WiiProtocol.CellValue | src/wii_balance/WiiBoard.py:384 | a placeholder cell (`1e4`, a float) raises TypeError and a byte cell decodes |
| WiiProtocol.CalcMass | src/wii_balance/WiiBoard.py:391-400 | below the 0 kg point the mass is 0.0; ZeroDivisionError is raised exactly when the upper band is entered with equal 17 kg and 34 kg points |
| WiiProtocol.CalcMassReferencePoints | src/wii_balance/WiiBoard.py:391-400 | the three calibration points read 0, 17 and 34 kg |
| WiiProtocol.CalcMassMonotone | src/wii_balance/WiiBoard.py:391-400 | with increasing calibration points the curve never fails and never decreases |
| WiiProtocol.LowerBandBelow1 | src/wii_balance/WiiBoard.py:393-396 | inside the lower band the interpolation fraction lies in [0, 1) |
| WiiProtocol.CalcMassSamples | src/wii-balance/wiiTasks.py:261-304 | sample readings with points 100/1000/1900 give 0, 8.5, 17, 25.5 and 34 kg |
| WiiProtocol.CalcMassAt | src/wii_balance/WiiBoard.py:357-400 | a corner raises TypeError exactly when one of its three calibration cells is a placeholder |
| WiiProtocol.CornerMasses | src/wii_balance/WiiBoard.py:349-354 | the masses succeed exactly when all four corners do, each from its own 2-byte slice, and otherwise carry a corner's error |
| WiiProtocol.GetMass | src/wii_balance/WiiBoard.py:342-354 | data under 8 bytes gives None; otherwise it is the four corner masses or their error |
| WiiProtocol.ButtonEdge | src/wii_balance/WiiBoard.py:324-339 | a press is reported exactly on up-to-down and a release exactly on down-to-up; the new `button_down` is the event, or unchanged |
| WiiProtocol.ButtonEventsAlternate | src/wii_balance/WiiBoard.py:324-339 | over any sequence of states, reported events alternate, and the first differs from the initial state |
| WiiProtocol.ButtonEventsHeld | src/wii_balance/WiiBoard.py:324-339 | holding one state reports at most one event |
| WiiProtocol.ButtonEventsAppend | src/wii_balance/WiiBoard.py:324-339 | the events of two stretches are those of the first, then those of the second from the first's final state |
| WiiProtocol.FinalDownHeld | src/wii_balance/WiiBoard.py:332-338 | after holding a state, `button_down` equals whether that state is a press |
| WiiProtocol.PressThenRelease | src/wii_balance/WiiBoard.py:324-339 | pressing for k frames then releasing for j frames reports exactly press, release |
| WiiProtocol.BatteryFraction | src/wii_balance/WiiBoard.py:284-286 | `battery = level / 200.0` lies in [0, 1.275] and is 1.0 at level 200 |
| WiiSession.Init | src/wii_balance/WiiBoard.py:61-66 | a new client is unconnected, not running, has no address and no sockets, and has written nothing |
| WiiSession.Discover | src/wii_balance/WiiBoard.py:69-91 | a board is found exactly when some scanned name has the prefix; the stored address is one of the matches, and nothing but the address changes |
| WiiSession.Connect | src/wii_balance/WiiBoard.py:93-129 | without an address nothing changes; with one the client is valid and reading, uncalibrated with no request pending, and nothing is written |
| WiiSession.Calibrate | src/wii_balance/WiiBoard.py:131-145 | four writes are appended, the request flag is set, and nothing else changes |
| WiiSession.OnStatus | src/wii_balance/WiiBoard.py:403-412 | writes `52 12 04 32` then `52 11 10` and changes nothing else |
| WiiSession.OnCalibrated | src/wii_balance/WiiBoard.py:414-418 | writes `52 11 10`, marks the client calibrated and changes nothing else |
| WiiSession.Disconnect | src/wii_balance/WiiBoard.py:245-250 | both sockets become None and the client stops reading; only the link fields change and the client stays valid |
| WiiSession.Close | src/wii_balance/WiiBoard.py:431-434 | the client stops reading, no socket is left live, and only `running` and the sockets change |
| WiiSession.Recv | src/wii_balance/WiiBoard.py:240-322 | one `recv` keeps `running` and the address; a turn that keeps reading, or any turn that stays connected, keeps the link and only appends writes |
| WiiSession.ConnectToBoard | src/wii_balance/WiiBoard.py:147-157 | an already connected client is untouched; otherwise the client stays valid and writes are only appended |
| WiiSession.OnMass | src/wii_balance/WiiBoard.py:419-424 | no masses give no response; masses give a MASS response carrying them |
| WiiSession.Extension | src/wii_balance/WiiBoard.py:310-322 | an extension frame always ends the call, keeps the link (sockets, address, running), changes nothing but `button_down` and never returns a CALIBRATION response |
| WiiSession.CalibrationBlock | src/wii_balance/WiiBoard.py:297-309 | a calibration block keeps the link and only appends to the write log |
| WiiSession.StatusFrame | src/wii_balance/WiiBoard.py:279-290 | a status frame keeps the link and only appends to the write log |
| WiiSession.ReadDataFrame | src/wii_balance/WiiBoard.py:291-309 | a read-data frame keeps the link and only appends to the write log |
| WiiSession.Frame | src/wii_balance/WiiBoard.py:277-322 | any frame keeps the link and only appends to the write log |
| WiiSession.StepValid | src/wii_balance/WiiBoard.py:240-322 | one `recv` keeps the client valid, keeps `running` and the address, and only appends writes |
| WiiSession.Run | src/wii_balance/WiiBoard.py:235-322 | a reading call consumes at most the script, stays valid, keeps `running` and the address, and only appends writes |
| WiiSession.CalibrateWrites | src/wii_balance/WiiBoard.py:131-145 | `calibrate` writes the four handshake frames in order, sets `calibration_requested` and changes nothing else |
| WiiSession.DiscoverFirstMatch | src/wii_balance/WiiBoard.py:69-91 | `discover` returns True exactly when some name has the prefix; it then stores the first such address and otherwise changes nothing |
| WiiSession.ConnectOutcome | src/wii_balance/WiiBoard.py:93-129 | without an address `connect` does nothing; with one it opens both sockets, resets the calibration state and starts reading |
| WiiSession.ConnectToBoardSequence | src/wii_balance/WiiBoard.py:147-157 | an already connected client is untouched; otherwise discover, connect, calibrate and read the calibration, with the handshake written first |
| WiiSession.InapplicableFrames | src/wii_balance/WiiBoard.py:266-315 | short, unknown, unrequested and not-yet-calibrated frames are skipped; short status or read-data frames return None |
| WiiSession.StatusReport | src/wii_balance/WiiBoard.py:279-290 | a status frame sets battery and light, writes the reporting and light commands, and returns a STATUS response only from `read_data` |
| WiiSession.HandshakeFirstBlock | src/wii_balance/WiiBoard.py:297-305 | the first block fills rows 0 and 1 and the loop keeps reading |
| WiiSession.HandshakeLastBlock | src/wii_balance/WiiBoard.py:306-309 | the last block fills row 2, clears the request, marks the client calibrated, turns the light on and returns the matrix |
| WiiSession.HandshakeRun | src/wii_balance/WiiBoard.py:221-233 | the two-block handshake in a reading call returns the full matrix after two frames |
| WiiSession.ButtonPreemptsMass | src/wii_balance/WiiBoard.py:317-319 | a button edge is returned instead of the masses of the same frame |
| WiiSession.MassReport | src/wii_balance/WiiBoard.py:321-322 | without an edge the frame returns the masses of bytes 4..12, None when short, or the calculation's error |
| WiiSession.ReceiveErrors | src/wii_balance/WiiBoard.py:240-263 | an empty read or EWOULDBLOCK drops both sockets and the connection and returns None; other socket errors return None unchanged |
| WiiSession.ClosedReadsNothing | src/wii_balance/WiiBoard.py:431-434 | once closed, or when never connected, a reading call reads nothing and returns None |
| WiiSession.CalibratedOnlyByHandshake | src/wii_balance/WiiBoard.py:227-233 | a CALIBRATION response carries the stored matrix, and an uncalibrated client becomes calibrated only with that response |
| WiiSession.StepCalibration | src/wii_balance/WiiBoard.py:240-322 | in one `recv`, a CALIBRATION response carries the stored matrix of a calibrated client whose request is cleared, an uncalibrated client becomes calibrated only in such a response, and a step that keeps reading leaves `calibrated` as it was |
| WiiSession.BlockCalibration | src/wii_balance/WiiBoard.py:297-309 | a requested calibration block satisfies the one-step calibration property |
| WiiSession.QuietCalibration | src/wii_balance/WiiBoard.py:240-322 | any frame other than a requested calibration block leaves `calibrated` as it was and never returns a CALIBRATION response |
| WiiSession.RunOutcomes | src/wii_balance/WiiBoard.py:159-233 | a reading call returns or raises and never blocks; `readCalibrationData` never raises and returns only None or the calibration |
| WiiSession.RunWrites | src/wii_balance/WiiBoard.py:403-418 | a reading call writes nothing but the status reply and the light command |
| WiiSession.StepWrites | src/wii_balance/WiiBoard.py:240-322 | one `recv` writes nothing but reporting commands and light-on commands |
| WiiSession.StatusWrites | src/wii_balance/WiiBoard.py:279-290 | a status frame writes nothing but reporting commands and light-on commands |
| WiiSession.BlockWrites | src/wii_balance/WiiBoard.py:297-309 | a requested calibration block writes nothing but reporting commands and light-on commands |
| WiiSession.QuietSteps | src/wii_balance/WiiBoard.py:240-322 | a step that is neither a status frame nor a requested read-data frame writes nothing |
| WiiClient.WiiBoard.constructor | src/wii_balance/WiiBoard.py:61-66 | the attributes `__init__` sets |
| WiiClient.WiiBoard.Discover | src/wii_balance/WiiBoard.py:69-91 | the result and new state are those of `WiiSession.Discover` |
| WiiClient.WiiBoard.Connect | src/wii_balance/WiiBoard.py:93-129 | the new state is `WiiSession.Connect` of the old |
| WiiClient.WiiBoard.Send | src/wii_balance/WiiBoard.py:444-446 | appends one framed write and changes nothing else |
| WiiClient.WiiBoard.Reporting | src/wii_balance/WiiBoard.py:447-450 | appends the reporting command |
| WiiClient.WiiBoard.Light | src/wii_balance/WiiBoard.py:451-452 | appends the light command |
| WiiClient.WiiBoard.Status | src/wii_balance/WiiBoard.py:453-454 | appends the status request |
| WiiClient.WiiBoard.Calibrate | src/wii_balance/WiiBoard.py:131-145 | the new state is `WiiSession.Calibrate` of the old |
| WiiClient.WiiBoard.CheckButton | src/wii_balance/WiiBoard.py:324-339 | updates `button_down` per `ButtonEdge` and returns the BUTTON response of an edge |
| WiiClient.WiiBoard.OnStatus | src/wii_balance/WiiBoard.py:403-412 | writes the status reply and returns battery x 100 and the light state |
| WiiClient.WiiBoard.OnCalibrated | src/wii_balance/WiiBoard.py:414-418 | turns the light on, sets `calibrated` and returns the matrix |
| WiiClient.WiiBoard.Close | src/wii_balance/WiiBoard.py:431-434 | stops running and closes the live sockets |
| WiiClient.WiiBoard.DropLink | src/wii_balance/WiiBoard.py:245-250 | both socket attributes become None and `connected` becomes False |
| WiiClient.WiiBoard.StatusReport | src/wii_balance/WiiBoard.py:279-290 | agrees with `WiiSession.StatusFrame` |
| WiiClient.WiiBoard.ReadDataReport | src/wii_balance/WiiBoard.py:291-309 | agrees with `WiiSession.ReadDataFrame` |
| WiiClient.WiiBoard.ExtensionReport | src/wii_balance/WiiBoard.py:310-322 | agrees with `WiiSession.Extension` |
| WiiClient.WiiBoard.Receive | src/wii_balance/WiiBoard.py:240-322 | one loop turn agrees with `WiiSession.Recv` |
| WiiClient.WiiBoard.Read | src/wii_balance/WiiBoard.py:240-322 | the loop's final state, outcome and consumed inputs are `WiiSession.Run` |
| WiiClient.WiiBoard.ReadCalibrationData | src/wii_balance/WiiBoard.py:159-233 | is `WiiSession.Run` with the calibration reader |
| WiiClient.WiiBoard.ReadData | src/wii_balance/WiiBoard.py:235-322 | is `WiiSession.Run` with the data reader |
| WiiClient.WiiBoard.ConnectToBoard | src/wii_balance/WiiBoard.py:147-157 | the new state is `WiiSession.ConnectToBoard` of the old |
| WiiTasks.Extension | src/wii-balance/wiiTasks.py:220-232 | an extension frame always ends the call and keeps the link |
| WiiTasks.StatusFrame | src/wii-balance/wiiTasks.py:195-203 | a status frame keeps the link |
| WiiTasks.ReadDataFrame | src/wii-balance/wiiTasks.py:204-219 | a read-data frame keeps the link |
| WiiTasks.Frame | src/wii-balance/wiiTasks.py:193-232 | any frame keeps the link |
| WiiTasks.Recv | src/wii-balance/wiiTasks.py:179-183 | one blocking `recv` keeps the link |
| WiiTasks.Run | src/wii-balance/wiiTasks.py:174-232 | a reading call stays valid, consumes at most the script and only appends writes |
| WiiTasks.MissingGuards | src/wii-balance/wiiTasks.py:195-246 | short status, requested read-data and calibrated extension frames raise IndexError |
| WiiTasks.UncheckedReads | src/wii-balance/wiiTasks.py:132-136 | empty reads are skipped as short frames; socket errors propagate |
| WiiTasks.AgreesWithCore | src/wii-balance/wiiTasks.py:174-232 | on frames of 12 bytes or more each turn equals the main client's |
| WiiTasks.ShortMassStillReported | src/wii-balance/wiiTasks.py:249-258 | a short extension frame still reports masses, where the main client returns None |
| WiiTasks.ShortMassInCore | src/wii_balance/WiiBoard.py:317-322 | on a calibrated main client, an extension frame of 4 to 11 bytes without a button edge returns None and leaves the client unchanged |
| WiiTasks.EmptyReadsNeverReturn | src/wii-balance/wiiTasks.py:179-183 | a run of empty reads, which `recv` gives at once after the peer closes, never returns: the loop keeps skipping them |
| WiiTasks.CalibrationRunOutcomes | src/wii-balance/wiiTasks.py:127-172 | `readCalibrationData` blocks, raises IndexError or a socket error, or returns the calibration |
| WiiTasks.SetupSequence | src/wii-balance/wiiTasks.py:63-67 | construction raises when the scan finds no board; otherwise the first board is used, the handshake written and the client running |
| WiiTasks.Setup | src/wii-balance/wiiTasks.py:63-67 | construction consumes at most the script; it leaves the object as it was, or valid with the calibration request written |
| WiiTasks.RunKeepsLink | src/wii-balance/wiiTasks.py:127-232 | a reading call keeps the address and `running` |
| WiiTasks.WiiBoard.constructor | src/wii-balance/wiiTasks.py:63 | the object before its `__init__` body runs |
| WiiTasks.WiiBoard.Init | src/wii-balance/wiiTasks.py:63-67 | the `__init__` body's result is `WiiTasks.Setup` |
| WiiTasks.WiiBoard.Discover | src/wii-balance/wiiTasks.py:69-88 | raises when no board is found; otherwise stores the first match |
| WiiTasks.WiiBoard.Connect | src/wii-balance/wiiTasks.py:90-109 | resets the state and opens the sockets, then raises when no address is known |
| WiiTasks.WiiBoard.Send | src/wii-balance/wiiTasks.py:345-347 | appends one framed write |
| WiiTasks.WiiBoard.Reporting | src/wii-balance/wiiTasks.py:348-351 | appends the reporting command |
| WiiTasks.WiiBoard.Light | src/wii-balance/wiiTasks.py:352-353 | appends the light command |
| WiiTasks.WiiBoard.Status | src/wii-balance/wiiTasks.py:354-355 | appends the status request |
| WiiTasks.WiiBoard.Calibrate | src/wii-balance/wiiTasks.py:111-125 | the same four writes and flag as the main client |
| WiiTasks.WiiBoard.CheckButton | src/wii-balance/wiiTasks.py:234-246 | a state under two bytes raises IndexError; otherwise the edge per `ButtonEdge` |
| WiiTasks.WiiBoard.OnStatus | src/wii-balance/wiiTasks.py:307-316 | writes the status reply and returns the STATUS response |
| WiiTasks.WiiBoard.OnCalibrated | src/wii-balance/wiiTasks.py:318-322 | turns the light on, sets `calibrated` and returns the matrix |
| WiiTasks.WiiBoard.Close | src/wii-balance/wiiTasks.py:332-335 | stops running and closes the live sockets |
| WiiTasks.WiiBoard.StatusReport | src/wii-balance/wiiTasks.py:195-203 | agrees with `WiiTasks.StatusFrame` |
| WiiTasks.WiiBoard.ReadDataReport | src/wii-balance/wiiTasks.py:204-219 | agrees with `WiiTasks.ReadDataFrame` |
| WiiTasks.WiiBoard.ExtensionReport | src/wii-balance/wiiTasks.py:220-232 | agrees with `WiiTasks.Extension` |
| WiiTasks.WiiBoard.Receive | src/wii-balance/wiiTasks.py:179-232 | one loop turn agrees with `WiiTasks.Recv` |
| WiiTasks.WiiBoard.Read | src/wii-balance/wiiTasks.py:174-232 | the loop's result is `WiiTasks.Run` |
| WiiTasks.WiiBoard.ReadCalibrationData | src/wii-balance/wiiTasks.py:127-172 | is `WiiTasks.Run` with the calibration reader |
| WiiTasks.WiiBoard.ReadData | src/wii-balance/wiiTasks.py:174-232 | is `WiiTasks.Run` with the data reader |
| WiiLoop.Fresh | src/wii-balance/wiiBoard.py:62-70 | a new `Wiiboard` owns both sockets and its loop may run |
| WiiLoop.Connected | src/wii-balance/wiiBoard.py:73-89 | `connect` appends four writes, sets the request flag, keeps the client valid and changes nothing else |
| WiiLoop.CheckButtonAsWritten | src/wii-balance/wiiBoard.py:153-160 | comparing a bytes slice with an int never reports a press |
| WiiLoop.ButtonNeverFires | src/wii-balance/wiiBoard.py:153-160 | starting released, no frame sequence ever reports an edge |
| WiiLoop.AsWrittenStaysUp | src/wii-balance/wiiBoard.py:154-160 | `button_down` stays False forever |
| WiiLoop.LoopNoButtons | src/wii-balance/wiiBoard.py:153-160 | from the released state every client starts in, `loop` never calls `on_pressed` or `on_released` and `button_down` stays False, whatever frames it reads |
| WiiLoop.StepNoButton | src/wii-balance/wiiBoard.py:173-216 | one turn of `loop` from the released state stays released and calls neither button hook |
| WiiLoop.ExtensionNoButton | src/wii-balance/wiiBoard.py:212-216 | an extension frame read while released stays released and calls neither button hook |
| WiiLoop.StatusFrame | src/wii-balance/wiiBoard.py:190-197 | a status frame keeps the link |
| WiiLoop.ReadDataFrame | src/wii-balance/wiiBoard.py:198-211 | a read-data frame keeps the link |
| WiiLoop.ExtensionFrame | src/wii-balance/wiiBoard.py:212-216 | an extension frame keeps the link; its button test is `check_button` as written, which never reports a press |
| WiiLoop.Frame | src/wii-balance/wiiBoard.py:187-216 | any frame keeps the link |
| WiiLoop.Recv | src/wii-balance/wiiBoard.py:173-177 | one blocking `recv` keeps the link |
| WiiLoop.Loop | src/wii-balance/wiiBoard.py:171-216 | the loop stays valid, keeps the link and consumes at most the script |
| WiiLoop.ConnectWrites | src/wii-balance/wiiBoard.py:73-89 | `connect` writes the four handshake frames, sets the request flag and changes nothing else |
| WiiLoop.LoopNeverReturnsValue | src/wii-balance/wiiBoard.py:171-216 | `loop` returns normally only when it cannot read, and then returns None |
| WiiLoop.StatusReport | src/wii-balance/wiiBoard.py:190-197 | a status frame sets battery and light, writes the reply and notifies STATUS |
| WiiLoop.Handshake | src/wii-balance/wiiBoard.py:198-211 | the first block fills rows 0 and 1; the last fills row 2, clears the request, turns the light on and notifies CALIBRATION |
| WiiLoop.UncalibratedExtensionRaises | src/wii-balance/wiiBoard.py:212-216 | an extension frame before calibration raises TypeError out of the loop |
| WiiLoop.Wiiboard.constructor | src/wii-balance/wiiBoard.py:62-72 | `Wiiboard(address)` connects at once when an address is given |
| WiiLoop.Wiiboard.Connect | src/wii-balance/wiiBoard.py:73-89 | the new state is `WiiLoop.Connected` of the old |
| WiiLoop.Wiiboard.Send | src/wii-balance/wiiBoard.py:91-93 | appends one framed write |
| WiiLoop.Wiiboard.Reporting | src/wii-balance/wiiBoard.py:99-102 | appends the reporting command |
| WiiLoop.Wiiboard.Light | src/wii-balance/wiiBoard.py:103-104 | appends the light command |
| WiiLoop.Wiiboard.Status | src/wii-balance/wiiBoard.py:105-106 | appends the status request |
| WiiLoop.Wiiboard.CheckButton | src/wii-balance/wiiBoard.py:153-160 | `check_button` as written: whatever the bytes, a held button is released with `on_released` notified, and nothing else ever changes |
| WiiLoop.Wiiboard.OnStatus | src/wii-balance/wiiBoard.py:217-221 | writes the status reply and notifies STATUS |
| WiiLoop.Wiiboard.Close | src/wii-balance/wiiBoard.py:232-235 | stops running and closes the live sockets |
| WiiLoop.Wiiboard.ReadDataReport | src/wii-balance/wiiBoard.py:198-211 | agrees with `WiiLoop.ReadDataFrame` |
| WiiLoop.Wiiboard.ExtensionReport | src/wii-balance/wiiBoard.py:212-216 | agrees with `WiiLoop.ExtensionFrame` |
| WiiLoop.Wiiboard.Receive | src/wii-balance/wiiBoard.py:173-216 | one loop turn agrees with `WiiLoop.Recv` |
| WiiLoop.Wiiboard.RunLoop | src/wii-balance/wiiBoard.py:171-216 | the loop's result is `WiiLoop.Loop` |
| KernelC.FirstFree | kernel.c:50-62 | the slot chosen is the lowest free one, and -1 is returned exactly when all 20 are taken |
| KernelC.Tick | kernel.c:64-82 | one schedule tick keeps the table's size |
| KernelC.TickSlot | kernel.c:66-80 | a tick keeps the function and period and raises the counter by one exactly when an occupied slot's delay is 0, else leaves it |
| KernelC.Fire | kernel.c:89-100 | a dispatch leaves no slot ready: a ready slot has its counter cleared and is freed exactly when one-shot; any other slot is untouched |
| KernelC.Due | kernel.c:87-100 | a pass below `n` makes at most `n` calls |
| KernelC.HandleN | kernel.c:118-124 | interrupts keep the period and the function of a still occupied slot, leave a free slot alone, and after one or more no slot is ready |
| KernelC.DueExactlyReady | kernel.c:84-102 | dispatch calls exactly the occupied slots below `cur_task` with `exec != 0`, each once, in increasing index order |
| KernelC.DelayAfter | kernel.c:70-79 | after n ticks the countdown is `d - n`, then cycles `p-1 .. 0` |
| KernelC.FiresOnSchedule | kernel.c:64-82 | with delay d and period p >= 1, `exec` rises on tick d+1 and every p ticks after, and on no other tick |
| KernelC.HandleTracksTick | kernel.c:84-124 | under interrupts a periodic slot's period and countdown follow the bare ticks, with `exec` cleared after each dispatch |
| KernelC.PeriodicCalls | kernel.c:118-124 | under timer interrupts a periodic task runs on interrupt d+1 and every p-th one after, and on no other |
| KernelC.CountdownAtZero | kernel.c:64-82 | after k - 1 ticks the countdown is at zero exactly when k = d + 1 or k lies a multiple of p after it |
| KernelC.OneShotState | kernel.c:96-99 | a period-0 slot counts down and is freed by the dispatch that runs it |
| KernelC.OneShotCall | kernel.c:96-99 | a period-0 task runs exactly once, on interrupt d+1 |
| KernelC.Kernel.constructor | kernel.c:36-38 | the zero-initialised table with `cur_task = NT` |
| KernelC.Kernel.Init | kernel.c:40-48 | `Sched_Init` marks every slot free and changes no other field |
| KernelC.Kernel.AddT | kernel.c:50-62 | fills the slot `FirstFree` names with `(p, d, f, 0)` and returns its index, or returns -1; no other slot changes |
| KernelC.Kernel.Schedule | kernel.c:64-82 | every slot becomes `TickSlot` of itself: free slots untouched, nonzero delay decremented, zero delay gives `exec + 1` and delay `period - 1` |
| KernelC.Kernel.Dispatch | kernel.c:84-102 | slots below `cur_task` are fired (exec cleared, one-shots freed), the call log grows by `Due`, and `cur_task` is restored |
| KernelC.Kernel.IntHandler | kernel.c:118-124 | SIGALRM runs one tick then one dispatch; any other signal changes nothing |
| KernelPy.Tick | src/kernel.py:29-37 | a schedule tick keeps the list's length and each position's function and period, and never lowers a counter |
| KernelPy.TickTask | src/kernel.py:30-37 | a tick keeps the function and period and raises the counter by one exactly when a task with a function has no positive delay, else leaves it |
| KernelPy.OneShotCountsEveryTick | src/kernel.py:33-37 | a one-shot task whose delay ran out stays at -1 and counts on every tick |
| KernelPy.FixedDispatchesAll | src/kernel.py:42-59 | the corrected pass calls each due task once in list order, clears counters, drops one-shots, keeps the rest in place and never raises |
| KernelPy.DispatchFixed | src/kernel.py:42-59 | the corrected pass never raises |
| KernelPy.FixedOnWindow | src/kernel.py:42-59 | the corrected pass over a stretch of the list calls that stretch's due tasks in order, settles exactly that stretch and leaves the tasks before and after it in place |
| KernelPy.DueCallsAppend | src/kernel.py:42-59 | the calls of two stretches of the list are those of the first followed by those of the second |
| KernelPy.SettledAppend | src/kernel.py:42-59 | settling two stretches of the list is settling each in turn |
| KernelPy.DispatchFrom | src/kernel.py:39-59 | the pass as written never grows the list, makes at most one call per visited index, and can raise only IndexError |
| KernelPy.DueStep | src/kernel.py:43-59 | a due task visited by the pass as written is logged and the walk goes on at the next index, over the list with the task updated or removed |
| KernelPy.AsWrittenAgrees | src/kernel.py:42-59 | without a due one-shot task, the pass as written equals the corrected one |
| KernelPy.RemovalRaises | src/kernel.py:42-59 | two due tasks, the first one-shot: the second is never called and the pass raises IndexError |
| KernelPy.RemovalSkips | src/kernel.py:42-59 | three due tasks, the first one-shot, bound 2: the second is skipped and the third runs |
| KernelPy.Scheduler.constructor | src/kernel.py:7-8 | an empty list and `current_task = 0` |
| KernelPy.Scheduler.AddTask | src/kernel.py:24-27 | appends exactly one task and sets `current_task` to the new length |
| KernelPy.Scheduler.Schedule | src/kernel.py:29-37 | the list becomes `Tick` of itself |
| KernelPy.Scheduler.Dispatch | src/kernel.py:39-59 | list, call log and exception are the as-written pass over the bound fixed at entry; `current_task` is restored |
| KernelPy.Scheduler.Interrupt | src/kernel.py:72-76 | one tick, then one dispatch |
| AlphabotMotion.OutputShapes | src/alphabot/Alphabot.py:59-109 | stop drives no pin; driving gives both wheels the same direction at driving power; turning gives opposite directions at turning power |
| AlphabotMotion.Output | src/alphabot/Alphabot.py:59-109 | both wheels get the same duty cycle, and both pin pairs are driven in opposite levels exactly when the action is not stop |
| AlphabotMotion.Candidate | src/alphabot/Alphabot.py:126-128 | the candidate direction is POSITIVE exactly when the first average is at least the second, and is never IDLE |
| AlphabotMotion.OneAxisWins | src/alphabot/Alphabot.py:132-152 | the larger difference wins (vertical on a tie), the other axis is reset to IDLE and power 0, so one axis is always IDLE |
| AlphabotMotion.Velocity | src/alphabot/Alphabot.py:118-165 | at least one axis is IDLE and at least one of the two powers is 0 |
| AlphabotMotion.BandLevels | src/alphabot/Alphabot.py:137-148 | a difference <= 10 gives IDLE and 0, <= 20 gives 25, <= 30 gives 50, <= 40 gives 75; above 40 the axis is unchanged |
| AlphabotMotion.Banded | src/alphabot/Alphabot.py:137-148 | above 40 the old direction and power stay; otherwise the power is one of 0, 25, 50 and 75, it is 0 exactly when the difference is at most 10, and above 10 the direction is the candidate |
| AlphabotMotion.Chosen | src/alphabot/Alphabot.py:170-187 | stop exactly when both axes are IDLE, forward/backwards by the vertical axis, otherwise right/left by the horizontal |
| AlphabotMotion.LeanForward | src/alphabot/Alphabot.py:118-185 | leaning forward by 10..40, more than sideways, drives forward at that band's power |
| AlphabotMotion.LevelStops | src/alphabot/Alphabot.py:118-173 | a board level within 10 on both axes stops the robot |
| AlphabotMotion.Alphabot.constructor | src/alphabot/Alphabot.py:25-54 | both axes IDLE, the given powers, and the motors stopped |
| AlphabotMotion.Alphabot.DriveForward | src/alphabot/Alphabot.py:59-65 | writes the forward output and changes no motion field |
| AlphabotMotion.Alphabot.DriveBackwards | src/alphabot/Alphabot.py:70-76 | writes the backwards output |
| AlphabotMotion.Alphabot.DriveLeft | src/alphabot/Alphabot.py:81-87 | writes the left-turn output |
| AlphabotMotion.Alphabot.DriveRight | src/alphabot/Alphabot.py:92-98 | writes the right-turn output |
| AlphabotMotion.Alphabot.Stop | src/alphabot/Alphabot.py:103-109 | writes zero duty and all pins low |
| AlphabotMotion.Alphabot.MassToVelocity | src/alphabot/Alphabot.py:118-165 | the new motion fields are `Velocity` of the old and the masses; the motors are untouched |
| AlphabotMotion.Alphabot.Drive | src/alphabot/Alphabot.py:170-187 | performs exactly the action `Chosen` names |

## Left out

- Bluetooth discovery, socket creation, `connect`, `settimeout` and `recv` are not executed. The scan is a parameter, opening and connecting always succeed, and each `recv` is one scripted outcome.
- A `recv` timeout in the main client raises a socket error without EWOULDBLOCK, so it is treated as `OtherError`. When a script runs out, the main client's read ends as that timeout would and returns None. The blocking variants return `Blocked` instead.
- Logging, `print`, `__del__`, `__enter__` and `__exit__` are left out. They have no effect on the modelled state.
- The `duration` argument of `discover` is left out; it only affects the scan.
- Python floats are reals. Battery and mass arithmetic is exact, with no rounding or NaN.
- The placeholder `1e4` calibration cell is a `Placeholder` value. `len()` of a float raises TypeError, so any `calc_mass` use of it raises TypeError.
- `[[1e4]*4]*3` shares one row three times. Rows are only ever replaced, never mutated in place, so the sharing is not modelled. The matrix returned in a CALIBRATION response is a value, not an alias of the client's list.
- In `src/wii_balance/WiiBoard.py`, the `calibration` attributes exist only after `connect`. The model gives them placeholder values from the start.
- WiiProtocol.CalcMass: when the upper band is entered with equal 17 kg and 34 kg points, `calc_mass` divides by zero (src/wii_balance/WiiBoard.py:390-399); the model raises ZeroDivisionError.
- `connect` is modelled on the success path only. Bluetooth connection failures are left out.
- `WiiboardSampling`, `WiiboardPrint`, `sendIntData` and the `__main__` block of `src/wii-balance/wiiBoard.py` are left out. So is the interactive loop of `src/wii-balance/wiiTasks.py`. They are demonstration code or never called.
- The `on_*` hooks of `src/wii-balance/wiiBoard.py` only log, and subclasses may override them. The model records each call with its data in `notified`.
- The task functions of both schedulers are opaque identifiers. A call is logged and does nothing else. A task that adds tasks, or an interrupt that arrives in the middle of a task, is not modelled.
- `kernel.c`: the GPIO, signal and timer set-up in `Sched_Init`, the busy loop in `main`, and C `int` overflow of `delay` and `exec` are left out. Integers are unbounded. SIGALRM is 14, its Linux value.
- KernelC.Kernel.IntHandler: models `int_handler`, the handler the program evidently means to run on each timer tick. As written, `Sched_Init` installs `alarmWakeup` (kernel.c:46), which is declared nowhere, and `ualarm(0, 1)` (kernel.c:47) has a zero first delay and arms no timer, so `int_handler` is never installed and never called.
- `src/kernel.py`: the `threading.Timer` calls, `setup()` and the busy loop are left out.
- `src/kernel.py`: the `Task` class is not part of this model. Each new task's counter is assumed to start at 0.
- `src/kernel.py`: `Task` equality is assumed to be Python's default identity. So `tasks.remove(task)` removes the task at the index just visited.
- `src/alphabot/Alphabot.py`: pin numbers, PWM frequency and the `RPi.GPIO` calls are left out. Each action's effect is the `Motors` record: two duty cycles and four pin levels.
- `src/alphabot/Alphabot.py`: the constructor's default powers (50 and 30) are not modelled. The powers are explicit parameters.
- `src/alphabot/Alphabot.py`: the "Unknown direction" branch of `drive` cannot be reached, because every direction pair is covered.
- `src/alphabot/Camera.py`, `src/tasks.py`, `src/alphabot/tasks.py`, `src/kernel/kernel.c` and the root `kernel.py` are not part of this model. They are hardware glue, stubs or superseded copies.

## Findings

| source | as written | input that shows it | evidently intended | confidence | as-written member | corrected member |
|---|---|---|---|---|---|---|
| src/wii-balance/wiiBoard.py:153-160 | `check_button` compares the `bytes` slice `data[2:4]` with the int `0x08`. In Python that comparison is always False, so a press is never seen and `button_down` never becomes True. | any extension frame whose button byte is `0x08` | compare the second byte, `state[1]`, as the main client does | high, not executed | WiiLoop.LoopNoButtons | WiiProtocol.PressThenRelease |
| src/kernel.py:42-59 | `Sched_Dispatch` loops over `range(current_task)`, fixed at entry, and calls `tasks.remove(task)` inside the loop. The removal shifts later tasks down one place, so the next task is skipped. Once the list is shorter than the bound, `tasks[i]` raises IndexError. | two due tasks, the first one-shot, with `current_task = 2` (the value `Sched_AddTask` leaves): only the first runs, then IndexError | visit every task of the pass once and drop the one-shots without disturbing the walk | high, not executed | KernelPy.RemovalRaises | KernelPy.FixedDispatchesAll |
