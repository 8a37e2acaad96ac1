/**
 * The balance-board client of `src/wii_balance/WiiBoard.py` as a state
 * machine over values: the client's fields form a `Board`, one `recv`
 * outcome is one step, and a reading call is a run over a scripted
 * sequence of outcomes. The class in module WiiClient is proved against
 * these functions; the lemmas below state what the client promises.
 */
module WiiSession {
  import opened Wrappers
  import opened WiiProtocol

  /** A socket attribute: `None`, a live socket, or a socket object already closed. */
  datatype Sock = NoSocket | Open | Closed

  /** The attributes of a `WiiBoard` object, plus the log of control-socket writes. */
  datatype Board = Board(
    connected: bool,
    boardAddress: Option<Address>,
    running: bool,
    receiveSocket: Sock,
    controlSocket: Sock,
    calibration: Matrix,
    calibrationRequested: bool,
    calibrated: bool,
    lightState: bool,
    buttonDown: bool,
    battery: real,
    sent: seq<Bytes>)

  /**
   * The calibration is a 3x4 matrix, and a running, connected client owns
   * two live sockets (every write of a reading call goes to a live socket).
   */
  predicate Valid(b: Board)
  {
    IsMatrix(b.calibration)
    && (b.running && b.connected ==> b.receiveSocket == Open && b.controlSocket == Open)
  }

  /** `__init__`; the calibration fields only exist after `connect`, and start as placeholders here. */
  function Init(): (b: Board)
    ensures Valid(b) && !b.connected && !b.running && b.boardAddress == None
    ensures b.receiveSocket == NoSocket && b.controlSocket == NoSocket && b.sent == []
  {
    Board(false, None, false, NoSocket, NoSocket, PLACEHOLDER_MATRIX, false, false, false, false, 0.0, [])
  }

  /** The loop condition of both reading calls. */
  predicate Reading(b: Board)
  {
    b.running && b.receiveSocket != NoSocket && b.connected
  }

  // ------------------------------------------------------------ set-up

  /** What `discover` leaves behind and whether it found a board. */
  datatype Discovery = Discovery(board: Board, found: bool)

  function Discover(b: Board, devices: seq<Device>, prefix: string): (r: Discovery)
    ensures r.found <==> Matches(devices, prefix) != []
    ensures r.found ==> r.board.boardAddress.Some? && r.board.boardAddress.value in Matches(devices, prefix)
    ensures r.board == b.(boardAddress := r.board.boardAddress) && (!r.found ==> r.board == b)
  {
    var boards := Matches(devices, prefix);
    if boards == [] then Discovery(b, false)
    else Discovery(b.(boardAddress := Some(boards[0])), true)
  }

  /**
   * `connect`: without an address nothing happens; otherwise both sockets
   * are opened, the calibration and status fields are reset and the
   * client is running and connected.
   */
  function Connect(b: Board): (r: Board)
    ensures r.boardAddress == b.boardAddress && r.sent == b.sent
    ensures b.boardAddress.None? ==> r == b
    ensures b.boardAddress.Some? ==> Valid(r) && Reading(r) && !r.calibrated && !r.calibrationRequested
  {
    if b.boardAddress.None? then b
    else b.(receiveSocket := Open, controlSocket := Open,
            calibration := PLACEHOLDER_MATRIX, calibrationRequested := false,
            calibrated := false, lightState := false, buttonDown := false,
            battery := 0.0, running := true, connected := true)
  }

  /** `calibrate`: the four calibration-start writes, with the request flag set after the first. */
  function Calibrate(b: Board): (r: Board)
    ensures r.calibrationRequested && b.sent < r.sent && |r.sent| == |b.sent| + 4
    ensures r.(sent := b.sent, calibrationRequested := b.calibrationRequested) == b
  {
    b.(sent := b.sent + CalibrationRequest(), calibrationRequested := true)
  }

  // --------------------------------------------------------- responders

  /** `on_status`: reporting mode and LED on are re-sent after every status report. */
  function OnStatus(b: Board): (r: Board)
    ensures r.sent == b.sent + [[0x52, 0x12, 0x04, 0x32], [0x52, 0x11, 0x10]]
    ensures r.(sent := b.sent) == b
  {
    CalibrationRequestBytes();
    b.(sent := b.sent + StatusReply())
  }

  /** The STATUS response, battery in percent. */
  function StatusResponse(b: Board): Response
  {
    Status(b.battery * 100.0, b.lightState)
  }

  /** `on_calibrated`: LED on, and the board counts as calibrated. */
  function OnCalibrated(b: Board): (r: Board)
    ensures r.calibrated && r.sent == b.sent + [[0x52, 0x11, 0x10]]
    ensures r.(sent := b.sent, calibrated := b.calibrated) == b
  {
    CalibrationRequestBytes();
    b.(sent := b.sent + [LightCmd(true)], calibrated := true)
  }

  /** `on_mass` */
  function OnMass(mass: Option<Masses>): (r: Option<Response>)
    ensures r.None? <==> mass.None?
    ensures r.Some? ==> r.value == Mass(mass.value)
  {
    match mass
    case None => None
    case Some(m) => Some(Mass(m))
  }

  /** The attributes a status report sets: `data[7] / 200` and LED 1 of `data[4]`. */
  function StatusUpdate(b: Board, data: Bytes): Board
    requires |data| >= 8
  {
    b.(battery := BatteryFraction(data[7]), lightState := LedOn(data[4]))
  }

  /** The two sockets set to `None` and the client marked disconnected. */
  function Disconnect(b: Board): (r: Board)
    ensures Valid(b) ==> Valid(r)
    ensures !Reading(r) && r.receiveSocket == NoSocket && r.controlSocket == NoSocket
    ensures r.(receiveSocket := b.receiveSocket, controlSocket := b.controlSocket, connected := b.connected) == b
  {
    b.(receiveSocket := NoSocket, controlSocket := NoSocket, connected := false)
  }

  /** `close`: stop running; the socket objects are closed but stay set. */
  function Close(b: Board): (r: Board)
    ensures !Reading(r) && r.receiveSocket != Open && r.controlSocket != Open
    ensures r.(running := b.running, receiveSocket := b.receiveSocket, controlSocket := b.controlSocket) == b
  {
    b.(running := false,
       receiveSocket := if b.receiveSocket == Open then Closed else b.receiveSocket,
       controlSocket := if b.controlSocket == Open then Closed else b.controlSocket)
  }

  // ------------------------------------------------------------- steps

  /** The two reading calls: `readCalibrationData` and `read_data`. */
  datatype Reader = CalibrationReader | DataReader

  /** One turn of a reading loop: go round again, or leave the call with an outcome. */
  datatype Step = Continue(board: Board) | Return(board: Board, outcome: Outcome)

  /**
   * A frame never touches the connection: `running`, the address, the
   * sockets and `connected` stay as they were, the matrix keeps its
   * shape, and writes are only ever appended.
   */
  predicate SameLink(b: Board, b1: Board)
  {
    b1.running == b.running && b1.boardAddress == b.boardAddress
    && b1.receiveSocket == b.receiveSocket && b1.controlSocket == b.controlSocket
    && b1.connected == b.connected && IsMatrix(b1.calibration) && b.sent <= b1.sent
  }

  /** The board after a step, whichever way it went. */
  function After(s: Step): Board
  {
    match s
    case Continue(b) => b
    case Return(b, _) => b
  }

  /** An outcome that carries the CALIBRATION response. */
  predicate IsCalibration(o: Outcome)
  {
    o.Returned? && o.response.Some? && o.response.value.Calibration?
  }

  /** An extension report once calibrated: a button edge first, otherwise the masses. */
  function Extension(b: Board, data: Bytes): (r: Step)
    requires IsMatrix(b.calibration)
    ensures r.Return? && SameLink(b, r.board)
    ensures r.board == b.(buttonDown := r.board.buttonDown) && !IsCalibration(r.outcome)
  {
    var e := ButtonEdge(b.buttonDown, PySlice(data, 2, 4));
    var b1 := b.(buttonDown := e.down);
    if e.event.Some? then Return(b1, Returned(Some(Button(e.event.value))))
    else match GetMass(b.calibration, PySlice(data, 4, 12))
      case Err(x) => Return(b1, Raised(x))
      case Ok(m) => Return(b1, Returned(OnMass(m)))
  }

  /** A read-data report while calibration is requested (`data[4]` must exist). */
  function CalibrationBlock(b: Board, data: Bytes): (r: Step)
    requires IsMatrix(b.calibration) && |data| >= 5
    ensures SameLink(b, After(r))
  {
    var blk := ReadBlock(b.calibration, data);
    if !blk.complete then Continue(b.(calibration := blk.matrix))
    else
      var b1 := b.(calibration := blk.matrix, calibrationRequested := false);
      var b2 := OnCalibrated(b1);
      assert b2.sent == b.sent + [[0x52, 0x11, 0x10]];
      Return(b2, Returned(Some(Calibration(blk.matrix))))
  }

  /** A status report: `read_data` returns STATUS, `readCalibrationData` reads on. */
  function StatusFrame(rd: Reader, b: Board, data: Bytes): (r: Step)
    requires Valid(b) && |data| >= 2
    ensures SameLink(b, After(r))
  {
    if |data| < 8 then Return(b, Returned(None))
    else
      var b1 := StatusUpdate(b, data);
      if rd == DataReader then Return(OnStatus(b1), Returned(Some(StatusResponse(b1))))
      else Continue(OnStatus(b1))
  }

  /** A read-data report: a calibration block while one is requested, otherwise ignored. */
  function ReadDataFrame(b: Board, data: Bytes): (r: Step)
    requires Valid(b) && |data| >= 2
    ensures SameLink(b, After(r))
  {
    if |data| < 8 then Return(b, Returned(None))
    else if !b.calibrationRequested then Continue(b)
    else CalibrationBlock(b, data)
  }

  /** The body of a reading loop after a non-empty `recv`: dispatch on `data[1]`. */
  function Frame(rd: Reader, b: Board, data: Bytes): (r: Step)
    requires Valid(b)
    ensures SameLink(b, After(r))
  {
    if |data| < 2 then Continue(b)
    else if data[1] == INPUT_STATUS then StatusFrame(rd, b, data)
    else if data[1] == INPUT_READ_DATA then ReadDataFrame(b, data)
    else if data[1] == EXTENSION_8BYTES && rd == DataReader then
      if !b.calibrated then Continue(b) else Extension(b, data)
    else Continue(b)
  }

  /** One `recv` and what the loop does with it. */
  function Recv(rd: Reader, b: Board, o: RecvOutcome): (r: Step)
    requires Valid(b)
    ensures r.Continue? ==> SameLink(b, r.board)
    ensures r.Return? && r.board.connected ==> SameLink(b, r.board)
    ensures After(r).running == b.running && After(r).boardAddress == b.boardAddress
  {
    match o
    case Data(d) => if d == [] then Return(Disconnect(b), Returned(None)) else Frame(rd, b, d)
    case Empty => Return(Disconnect(b), Returned(None))
    case WouldBlock => Return(Disconnect(b), Returned(None))
    case OtherError => Return(b, Returned(None))
  }

  /** A step changes only the calibration, status, button and log fields, or disconnects. */
  lemma StepValid(rd: Reader, b: Board, o: RecvOutcome)
    requires Valid(b)
    ensures Valid(After(Recv(rd, b, o)))
    ensures After(Recv(rd, b, o)).running == b.running
    ensures After(Recv(rd, b, o)).boardAddress == b.boardAddress
    ensures b.sent <= After(Recv(rd, b, o)).sent
  {
  }

  // -------------------------------------------------------------- runs

  /** How a reading call ended, and how many `recv` outcomes it consumed. */
  datatype RunResult = RunResult(board: Board, outcome: Outcome, used: nat)

  /** A run's result with `n` more reads counted. */
  function Shifted(r: RunResult, n: nat): RunResult
  {
    RunResult(r.board, r.outcome, r.used + n)
  }

  /**
   * A reading call over the scripted `recv` outcomes. When the script runs
   * out, the next `recv` hits the 0.1 s timeout, which is handled like any
   * other socket error: the call returns None.
   */
  function Run(rd: Reader, b: Board, inputs: seq<RecvOutcome>): (r: RunResult)
    requires Valid(b)
    ensures Valid(r.board) && r.used <= |inputs|
    ensures r.board.running == b.running && r.board.boardAddress == b.boardAddress
    ensures b.sent <= r.board.sent
    decreases |inputs|
  {
    if !Reading(b) || inputs == [] then RunResult(b, Returned(None), 0)
    else
      StepValid(rd, b, inputs[0]);
      match Recv(rd, b, inputs[0])
      case Return(b1, out) => RunResult(b1, out, 1)
      case Continue(b1) =>
        var rest := Run(rd, b1, inputs[1..]);
        RunResult(rest.board, rest.outcome, rest.used + 1)
  }

  /**
   * `connectToBoard`: unless already connected, discover a board by its
   * default name, connect, and if that worked calibrate and read the
   * calibration reports (whose result is dropped).
   */
  function ConnectToBoard(b: Board, devices: seq<Device>, inputs: seq<RecvOutcome>): (r: Board)
    requires Valid(b)
    ensures Valid(r) && b.sent <= r.sent
    ensures b.connected ==> r == b
  {
    if b.connected then b
    else
      var d := Discover(b, devices, BLUETOOTH_NAME);
      var b1 := if d.found then Connect(d.board) else d.board;
      if b1.connected then Run(CalibrationReader, Calibrate(b1), inputs).board else b1
  }

  // ------------------------------------------------------ set-up facts

  /** `calibrate` writes exactly the four calibration-start commands and raises the request flag. */
  lemma CalibrateWrites(b: Board)
    ensures Calibrate(b).sent == b.sent + [
      [0x52, 0x17, 0x04, 0xA4, 0x00, 0x24, 0x00, 0x18],
      [0x52, 0x16, 0x04, 0xA4, 0x00, 0x40, 0x00],
      [0x52, 0x15, 0x00],
      [0x52, 0x11, 0x00]]
    ensures Calibrate(b).calibrationRequested
    ensures Calibrate(b).(sent := b.sent, calibrationRequested := b.calibrationRequested) == b
  {
    CalibrationRequestBytes();
  }

  /**
   * `discover` finds a board exactly when some scanned name has the prefix,
   * keeps the address of the first such device, and otherwise changes nothing.
   */
  lemma DiscoverFirstMatch(b: Board, devices: seq<Device>, prefix: string)
    ensures var r := Discover(b, devices, prefix);
      (r.found <==> exists i :: 0 <= i < |devices| && HasPrefix(devices[i].name, prefix))
      && (r.found ==>
            exists i :: 0 <= i < |devices| && HasPrefix(devices[i].name, prefix)
              && r.board.boardAddress == Some(devices[i].address)
              && forall j :: 0 <= j < i ==> !HasPrefix(devices[j].name, prefix))
      && (!r.found ==> r.board == b)
      && r.board == b.(boardAddress := r.board.boardAddress)
  {
    MatchesHead(devices, prefix);
  }

  /** `connect` without an address is a no-op; with one it leaves a fresh, reading, uncalibrated client. */
  lemma ConnectOutcome(b: Board)
    ensures b.boardAddress.None? ==> Connect(b) == b
    ensures b.boardAddress.Some? ==>
      var c := Connect(b);
      Valid(c) && Reading(c) && c.boardAddress == b.boardAddress
      && c.calibration == PLACEHOLDER_MATRIX && !c.calibrationRequested && !c.calibrated
      && !c.lightState && !c.buttonDown && c.battery == 0.0 && c.sent == b.sent
  {
  }

  /** `connectToBoard` runs discover, connect, calibrate and the calibration read, in that order. */
  lemma ConnectToBoardSequence(b: Board, devices: seq<Device>, inputs: seq<RecvOutcome>)
    requires Valid(b)
    ensures b.connected ==> ConnectToBoard(b, devices, inputs) == b
    ensures !b.connected && Matches(devices, BLUETOOTH_NAME) == [] ==> ConnectToBoard(b, devices, inputs) == b
    ensures !b.connected && Matches(devices, BLUETOOTH_NAME) != [] ==>
      var c := Connect(b.(boardAddress := Some(Matches(devices, BLUETOOTH_NAME)[0])));
      ConnectToBoard(b, devices, inputs) == Run(CalibrationReader, Calibrate(c), inputs).board
      && b.sent + CalibrationRequest() <= ConnectToBoard(b, devices, inputs).sent
  {
  }

  // ------------------------------------------------------- frame facts

  /**
   * Frames that carry nothing for the current state: a one-byte frame is
   * skipped, a short status or read-data frame ends the call with None,
   * and read-data while no calibration is requested, extension reports
   * before calibration (or during the calibration read) and unknown tags
   * change nothing.
   */
  lemma InapplicableFrames(rd: Reader, b: Board, d: Bytes)
    requires Valid(b) && d != []
    ensures |d| < 2 ==> Recv(rd, b, Data(d)) == Continue(b)
    ensures |d| >= 2 && (d[1] == INPUT_STATUS || d[1] == INPUT_READ_DATA) && |d| < 8 ==>
      Recv(rd, b, Data(d)) == Return(b, Returned(None))
    ensures |d| >= 8 && d[1] == INPUT_READ_DATA && !b.calibrationRequested ==>
      Recv(rd, b, Data(d)) == Continue(b)
    ensures |d| >= 2 && d[1] == EXTENSION_8BYTES && (!b.calibrated || rd == CalibrationReader) ==>
      Recv(rd, b, Data(d)) == Continue(b)
    ensures |d| >= 2 && d[1] != INPUT_STATUS && d[1] != INPUT_READ_DATA && d[1] != EXTENSION_8BYTES ==>
      Recv(rd, b, Data(d)) == Continue(b)
  {
  }

  /**
   * A full status report sets the battery fraction and the LED flag, writes
   * `52 12 04 32` and `52 11 10`, and in `read_data` returns STATUS with the
   * battery in percent; `readCalibrationData` reads on.
   */
  lemma StatusReport(rd: Reader, b: Board, d: Bytes)
    requires Valid(b) && |d| >= 8 && d[1] == INPUT_STATUS
    ensures var s := Recv(rd, b, Data(d));
      var battery := (d[7] as int) as real / 200.0;
      var light := d[4] & 0x10 == 0x10;
      After(s) == b.(battery := battery, lightState := light,
                     sent := b.sent + [[0x52, 0x12, 0x04, 0x32], [0x52, 0x11, 0x10]])
      && (s.Return? <==> rd == DataReader)
      && (s.Return? ==> s.outcome == Returned(Some(Status(battery * 100.0, light))))
  {
    assert Recv(rd, b, Data(d)) == StatusFrame(rd, b, d);
    CalibrationRequestBytes();
  }

  /**
   * A 16-byte calibration block: rows 0 and 1 come from bytes 7..14 and
   * 15..22, row 2 is reset to the placeholder and reading goes on.
   */
  lemma HandshakeFirstBlock(rd: Reader, b: Board, d: Bytes)
    requires Valid(b) && b.calibrationRequested
    requires |d| >= 8 && d[1] == INPUT_READ_DATA && d[4] >= 0xF0
    ensures Recv(rd, b, Data(d)) ==
      Continue(b.(calibration := [RowOf(PySlice(d, 7, 15)), RowOf(PySlice(d, 15, 23)), PLACEHOLDER_ROW]))
  {
    FirstBlockRows(b.calibration, d);
  }

  /**
   * A shorter calibration block: only row 2 is replaced, the request flag
   * is cleared, the board is calibrated, `52 11 10` is written and the call
   * returns CALIBRATION with the new matrix.
   */
  lemma HandshakeLastBlock(rd: Reader, b: Board, d: Bytes)
    requires Valid(b) && b.calibrationRequested
    requires |d| >= 8 && d[1] == INPUT_READ_DATA && d[4] < 0xF0
    ensures var m := b.calibration[2 := RowOf(PySlice(d, 7, 7 + Min(8, d[4] as int / 16 + 1)))];
      Recv(rd, b, Data(d)) ==
        Return(b.(calibration := m, calibrationRequested := false, calibrated := true,
                  sent := b.sent + [[0x52, 0x11, 0x10]]),
               Returned(Some(Calibration(m))))
  {
    LastBlockRow(b.calibration, d);
  }

  /**
   * The handshake end to end: a 16-byte block then a shorter one give a
   * single CALIBRATION response after exactly two reads, holding rows from
   * both blocks, whatever follows in the script.
   */
  lemma HandshakeRun(rd: Reader, b: Board, d1: Bytes, d2: Bytes, rest: seq<RecvOutcome>)
    requires Valid(b) && Reading(b) && b.calibrationRequested
    requires |d1| >= 8 && d1[1] == INPUT_READ_DATA && d1[4] >= 0xF0
    requires |d2| >= 8 && d2[1] == INPUT_READ_DATA && d2[4] < 0xF0
    ensures var m := [RowOf(PySlice(d1, 7, 15)), RowOf(PySlice(d1, 15, 23)),
                      RowOf(PySlice(d2, 7, 7 + Min(8, d2[4] as int / 16 + 1)))];
      var r := Run(rd, b, [Data(d1), Data(d2)] + rest);
      r.outcome == Returned(Some(Calibration(m))) && r.used == 2
      && r.board.calibration == m && r.board.calibrated && !r.board.calibrationRequested
      && r.board.sent == b.sent + [[0x52, 0x11, 0x10]]
  {
    var inputs := [Data(d1), Data(d2)] + rest;
    HandshakeFirstBlock(rd, b, d1);
    var b1 := b.(calibration := [RowOf(PySlice(d1, 7, 15)), RowOf(PySlice(d1, 15, 23)), PLACEHOLDER_ROW]);
    assert inputs[0] == Data(d1) && inputs[1..] == [Data(d2)] + rest;
    HandshakeLastBlock(rd, b1, d2);
    var r1 := Run(rd, b1, inputs[1..]);
    assert r1.used == 1 && r1.outcome == Recv(rd, b1, Data(d2)).outcome && r1.board == Recv(rd, b1, Data(d2)).board;
    assert Run(rd, b, inputs) == RunResult(r1.board, r1.outcome, 2);
    var row2 := RowOf(PySlice(d2, 7, 7 + Min(8, d2[4] as int / 16 + 1)));
    assert b1.calibration[2 := row2] == [RowOf(PySlice(d1, 7, 15)), RowOf(PySlice(d1, 15, 23)), row2];
  }

  /**
   * An extension report with a button edge returns BUTTON before any mass
   * is decoded, so it returns even while the matrix holds placeholders.
   */
  lemma ButtonPreemptsMass(b: Board, d: Bytes)
    requires Valid(b) && b.calibrated
    requires |d| >= 4 && d[1] == EXTENSION_8BYTES && (d[3] == BUTTON_DOWN_MASK) != b.buttonDown
    ensures Recv(DataReader, b, Data(d)) ==
      Return(b.(buttonDown := d[3] == 0x08), Returned(Some(Button(d[3] == 0x08))))
  {
  }

  /**
   * An extension report without a button edge: nothing changes and the call
   * returns the decoded masses, None for fewer than twelve bytes, or the
   * error the mass curve raises.
   */
  lemma MassReport(b: Board, d: Bytes)
    requires Valid(b) && b.calibrated
    requires |d| >= 2 && d[1] == EXTENSION_8BYTES
    requires |d| < 4 || (d[3] == BUTTON_DOWN_MASK) == b.buttonDown
    ensures Recv(DataReader, b, Data(d)).board == b
    ensures |d| < 12 ==> Recv(DataReader, b, Data(d)).outcome == Returned(None)
    ensures |d| >= 12 ==>
      Recv(DataReader, b, Data(d)).outcome ==
        match CornerMasses(b.calibration, d[4..12])
        case Err(e) => Raised(e)
        case Ok(m) => Returned(Some(Mass(m)))
  {
    if |d| >= 12 {
      assert PySlice(d, 4, 12) == d[4..12];
    }
  }

  // --------------------------------------------------------- run facts

  /** An empty read or EWOULDBLOCK closes the link; another error (or a timeout) keeps it. */
  lemma ReceiveErrors(rd: Reader, b: Board, inputs: seq<RecvOutcome>)
    requires Valid(b)
    ensures Recv(rd, b, Empty) == Return(Disconnect(b), Returned(None))
    ensures Recv(rd, b, Data([])) == Return(Disconnect(b), Returned(None))
    ensures Recv(rd, b, WouldBlock) == Return(Disconnect(b), Returned(None))
    ensures Recv(rd, b, OtherError) == Return(b, Returned(None))
    ensures Valid(Disconnect(b)) && Disconnect(b).receiveSocket == NoSocket
      && Disconnect(b).controlSocket == NoSocket && !Disconnect(b).connected
    ensures Run(rd, Disconnect(b), inputs) == RunResult(Disconnect(b), Returned(None), 0)
  {
  }

  /** After `close`, or once disconnected, a reading call returns None without reading. */
  lemma ClosedReadsNothing(rd: Reader, b: Board, inputs: seq<RecvOutcome>)
    requires Valid(b)
    ensures Valid(Close(b)) && !Close(b).running
    ensures Run(rd, Close(b), inputs) == RunResult(Close(b), Returned(None), 0)
    ensures !b.connected ==> Run(rd, b, inputs) == RunResult(b, Returned(None), 0)
  {
  }

  /**
   * The CALIBRATION response is returned exactly when the run completes the
   * handshake: it carries the board's final matrix, and a board that was
   * not calibrated becomes calibrated in no other way.
   */
  /** What one step may do to the calibration flags: only a returned CALIBRATION sets them. */
  predicate CalibrationStep(b: Board, s: Step)
  {
    (s.Continue? ==> s.board.calibrated == b.calibrated)
    && (s.Return? && IsCalibration(s.outcome) ==>
          s.outcome.response.value.matrix == s.board.calibration
          && s.board.calibrated && !s.board.calibrationRequested)
    && (s.Return? && !b.calibrated && s.board.calibrated ==> IsCalibration(s.outcome))
  }

  lemma BlockCalibration(rd: Reader, b: Board, d: Bytes)
    requires Valid(b) && |d| >= 8 && d[1] == INPUT_READ_DATA && b.calibrationRequested
    ensures CalibrationStep(b, Recv(rd, b, Data(d)))
  {
    assert Recv(rd, b, Data(d)) == CalibrationBlock(b, d);
  }

  lemma QuietCalibration(rd: Reader, b: Board, o: RecvOutcome)
    requires Valid(b)
    requires o.Data? && |o.bytes| >= 8 && b.calibrationRequested ==> o.bytes[1] != INPUT_READ_DATA
    ensures After(Recv(rd, b, o)).calibrated == b.calibrated
    ensures Recv(rd, b, o).Return? ==> !IsCalibration(Recv(rd, b, o).outcome)
  {
    if o.Data? && |o.bytes| >= 2 {
      var d := o.bytes;
      if d[1] == EXTENSION_8BYTES && rd == DataReader && b.calibrated {
        assert Recv(rd, b, o) == Extension(b, d);
      }
    }
  }

  lemma StepCalibration(rd: Reader, b: Board, o: RecvOutcome)
    requires Valid(b)
    ensures CalibrationStep(b, Recv(rd, b, o))
  {
    if o.Data? && |o.bytes| >= 8 && o.bytes[1] == INPUT_READ_DATA && b.calibrationRequested {
      BlockCalibration(rd, b, o.bytes);
    } else {
      QuietCalibration(rd, b, o);
    }
  }

  lemma {:induction false} CalibratedOnlyByHandshake(rd: Reader, b: Board, inputs: seq<RecvOutcome>)
    requires Valid(b)
    ensures var r := Run(rd, b, inputs);
      (forall m :: r.outcome == Returned(Some(Calibration(m))) ==>
         m == r.board.calibration && r.board.calibrated && !r.board.calibrationRequested)
      && (!b.calibrated && r.board.calibrated ==> r.outcome == Returned(Some(Calibration(r.board.calibration))))
    decreases |inputs|
  {
    if Reading(b) && inputs != [] {
      StepValid(rd, b, inputs[0]);
      StepCalibration(rd, b, inputs[0]);
      var s := Recv(rd, b, inputs[0]);
      if s.Continue? {
        CalibratedOnlyByHandshake(rd, s.board, inputs[1..]);
      }
    }
  }

  /**
   * A reading call never blocks and `readCalibrationData` never raises: it
   * returns None or the CALIBRATION response.
   */
  lemma {:induction false} RunOutcomes(rd: Reader, b: Board, inputs: seq<RecvOutcome>)
    requires Valid(b)
    ensures Run(rd, b, inputs).outcome.Returned? || Run(rd, b, inputs).outcome.Raised?
    ensures rd == CalibrationReader ==> var out := Run(rd, b, inputs).outcome;
      out.Returned? && (out.response == None || out.response.value.Calibration?)
    decreases |inputs|
  {
    if Reading(b) && inputs != [] {
      StepValid(rd, b, inputs[0]);
      var s := Recv(rd, b, inputs[0]);
      if s.Continue? {
        RunOutcomes(rd, s.board, inputs[1..]);
      }
    }
  }

  /** Every write from position `from` on is the status reply's reporting command or LED-on. */
  predicate RepliesOnly(log: seq<Bytes>, from: nat)
  {
    forall k :: from <= k < |log| ==> log[k] == [0x52, 0x12, 0x04, 0x32] || log[k] == [0x52, 0x11, 0x10]
  }

  /** Appending only replies keeps the log's tail made of replies. */
  lemma RepliesAppend(log: seq<Bytes>, x: seq<Bytes>)
    requires RepliesOnly(x, 0)
    ensures RepliesOnly(log + x, |log|)
  {
    forall k | |log| <= k < |log + x|
      ensures (log + x)[k] == [0x52, 0x12, 0x04, 0x32] || (log + x)[k] == [0x52, 0x11, 0x10]
    {
      assert (log + x)[k] == x[k - |log|];
    }
  }

  /** Two stretches of replies, one logged after the other, are one stretch. */
  lemma RepliesChain(l1: seq<Bytes>, l2: seq<Bytes>, from: nat)
    requires l1 <= l2 && from <= |l1|
    requires RepliesOnly(l1, from) && RepliesOnly(l2, |l1|)
    ensures RepliesOnly(l2, from)
  {
    forall k | from <= k < |l2|
      ensures l2[k] == [0x52, 0x12, 0x04, 0x32] || l2[k] == [0x52, 0x11, 0x10]
    {
      if k < |l1| {
        assert l2[k] == l1[k];
      }
    }
  }

  /** A full status report writes the status reply. */
  lemma StatusWrites(rd: Reader, b: Board, d: Bytes)
    requires Valid(b) && |d| >= 8 && d[1] == INPUT_STATUS
    ensures RepliesOnly(After(Recv(rd, b, Data(d))).sent, |b.sent|)
  {
    assert After(Recv(rd, b, Data(d))) == OnStatus(StatusUpdate(b, d));
    CalibrationRequestBytes();
    RepliesAppend(b.sent, StatusReply());
  }

  /** A calibration block writes the LED-on command when it completes the matrix, and nothing otherwise. */
  lemma BlockWrites(rd: Reader, b: Board, d: Bytes)
    requires Valid(b) && |d| >= 8 && d[1] == INPUT_READ_DATA && b.calibrationRequested
    ensures RepliesOnly(After(Recv(rd, b, Data(d))).sent, |b.sent|)
  {
    var r := CalibrationBlock(b, d);
    assert Recv(rd, b, Data(d)) == r;
    if BlockLength(d) < 16 {
      assert After(r).sent == b.sent + [[0x52, 0x11, 0x10]];
      RepliesAppend(b.sent, [[0x52, 0x11, 0x10]]);
    } else {
      assert After(r).sent == b.sent;
    }
  }

  /** Every other outcome of a `recv` writes nothing. */
  lemma QuietSteps(rd: Reader, b: Board, o: RecvOutcome)
    requires Valid(b)
    requires o.Data? && |o.bytes| >= 8 ==> o.bytes[1] != INPUT_STATUS
    requires o.Data? && |o.bytes| >= 8 && b.calibrationRequested ==> o.bytes[1] != INPUT_READ_DATA
    ensures After(Recv(rd, b, o)).sent == b.sent
  {
    if o.Data? && |o.bytes| >= 2 {
      var d := o.bytes;
      if d[1] == EXTENSION_8BYTES && rd == DataReader && b.calibrated {
        assert Recv(rd, b, o) == Extension(b, d);
      }
    }
  }

  /** One `recv` writes at most the status reply or the LED-on command. */
  lemma StepWrites(rd: Reader, b: Board, o: RecvOutcome)
    requires Valid(b)
    ensures RepliesOnly(After(Recv(rd, b, o)).sent, |b.sent|)
  {
    if o.Data? && |o.bytes| >= 8 && o.bytes[1] == INPUT_STATUS {
      StatusWrites(rd, b, o.bytes);
    } else if o.Data? && |o.bytes| >= 8 && o.bytes[1] == INPUT_READ_DATA && b.calibrationRequested {
      BlockWrites(rd, b, o.bytes);
    } else {
      QuietSteps(rd, b, o);
    }
  }

  /** While reading, the client writes nothing but the status reply and LED-on commands. */
  lemma {:induction false} RunWrites(rd: Reader, b: Board, inputs: seq<RecvOutcome>)
    requires Valid(b)
    ensures RepliesOnly(Run(rd, b, inputs).board.sent, |b.sent|)
    decreases |inputs|
  {
    if Reading(b) && inputs != [] {
      StepValid(rd, b, inputs[0]);
      StepWrites(rd, b, inputs[0]);
      var s := Recv(rd, b, inputs[0]);
      if s.Continue? {
        RunWrites(rd, s.board, inputs[1..]);
        assert Run(rd, b, inputs).board == Run(rd, s.board, inputs[1..]).board;
        RepliesChain(s.board.sent, Run(rd, s.board, inputs[1..]).board.sent, |b.sent|);
      }
    }
  }
}
