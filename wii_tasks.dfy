/**
 * The earlier client of `src/wii-balance/wiiTasks.py`. It shares the
 * attributes, the command writes, the calibration handshake and the weight
 * curve with the core client (module WiiSession) but has no `connected`
 * flag, checks neither `recv` errors nor frame lengths, raises when no
 * board is found, and uses a blocking socket: when the scripted input runs
 * out the call is still waiting in `recv` (outcome `Blocked`).
 */
module WiiTasks {
  import opened Wrappers
  import opened WiiProtocol
  import Core = WiiSession

  /** The sockets are live whenever the client runs; the matrix is 3x4. */
  predicate Valid(b: Core.Board)
  {
    IsMatrix(b.calibration) && (b.running ==> b.receiveSocket == Core.Open && b.controlSocket == Core.Open)
  }

  /** The loop condition: `running` and a receive socket, no `connected` flag. */
  predicate Reading(b: Core.Board)
  {
    b.running && b.receiveSocket != Core.NoSocket
  }

  /** `discover`: the address of the first device with the prefix, or an exception. */
  function DiscoverResult(b: Core.Board, devices: seq<Device>, prefix: string): (r: Result<Core.Board>)
  {
    var boards := Matches(devices, prefix);
    if boards == [] then Err(NoBoardFound) else Ok(b.(boardAddress := Some(boards[0])))
  }

  /** The state `connect` leaves before it checks the address (and raises without one). */
  function ConnectState(b: Core.Board): (r: Core.Board)
  {
    b.(controlSocket := Core.Open, receiveSocket := Core.Open,
       calibration := PLACEHOLDER_MATRIX, calibrationRequested := false,
       calibrated := false, lightState := false, buttonDown := false,
       battery := 0.0, running := true)
  }

  /** The extension branch once calibrated: `data[3]` is read unguarded and `on_mass` always wraps. */
  function Extension(b: Core.Board, data: Bytes): (r: Core.Step)
    requires IsMatrix(b.calibration)
    ensures r.Return? && Core.SameLink(b, r.board)
  {
    if |data| < 4 then Core.Return(b, Raised(IndexError))
    else
      var e := ButtonEdge(b.buttonDown, data[2..4]);
      var b1 := b.(buttonDown := e.down);
      if e.event.Some? then Core.Return(b1, Returned(Some(Button(e.event.value))))
      else match CornerMasses(b.calibration, PySlice(data, 4, 12))
        case Err(x) => Core.Return(b1, Raised(x))
        case Ok(m) => Core.Return(b1, Returned(Some(Mass(m))))
  }

  /** A status report: `data[7]` is read first, so a short frame raises before anything changes. */
  function StatusFrame(rd: Core.Reader, b: Core.Board, data: Bytes): (r: Core.Step)
    requires IsMatrix(b.calibration)
    ensures Core.SameLink(b, Core.After(r))
  {
    if |data| < 8 then Core.Return(b, Raised(IndexError))
    else
      var b1 := Core.StatusUpdate(b, data);
      if rd == Core.DataReader then Core.Return(Core.OnStatus(b1), Returned(Some(Core.StatusResponse(b1))))
      else Core.Continue(Core.OnStatus(b1))
  }

  /** A read-data report: only `data[4]` is needed to run the shared handshake. */
  function ReadDataFrame(b: Core.Board, data: Bytes): (r: Core.Step)
    requires IsMatrix(b.calibration)
    ensures Core.SameLink(b, Core.After(r))
  {
    if !b.calibrationRequested then Core.Continue(b)
    else if |data| < 5 then Core.Return(b, Raised(IndexError))
    else Core.CalibrationBlock(b, data)
  }

  /** The loop body after a `recv` that returned bytes (possibly none). */
  function Frame(rd: Core.Reader, b: Core.Board, data: Bytes): (r: Core.Step)
    requires IsMatrix(b.calibration)
    ensures Core.SameLink(b, Core.After(r))
  {
    if |data| < 2 then Core.Continue(b)
    else if data[1] == INPUT_STATUS then StatusFrame(rd, b, data)
    else if data[1] == INPUT_READ_DATA then ReadDataFrame(b, data)
    else if data[1] == EXTENSION_8BYTES && rd == Core.DataReader then
      if !b.calibrated then Core.Continue(b) else Extension(b, data)
    else Core.Continue(b)
  }

  /** One `recv`: an empty read is just a short frame, and a socket error propagates. */
  function Recv(rd: Core.Reader, b: Core.Board, o: RecvOutcome): (r: Core.Step)
    requires IsMatrix(b.calibration)
    ensures Core.SameLink(b, Core.After(r))
  {
    match o
    case Data(d) => Frame(rd, b, d)
    case Empty => Core.Continue(b)
    case WouldBlock => Core.Return(b, Raised(SocketError))
    case OtherError => Core.Return(b, Raised(SocketError))
  }

  /** A reading call; with the script used up it is blocked in `recv`. */
  function Run(rd: Core.Reader, b: Core.Board, inputs: seq<RecvOutcome>): (r: Core.RunResult)
    requires Valid(b)
    ensures Valid(r.board) && r.used <= |inputs| && b.sent <= r.board.sent
    decreases |inputs|
  {
    if !Reading(b) then Core.RunResult(b, Returned(None), 0)
    else if inputs == [] then Core.RunResult(b, Blocked, 0)
    else
      match Recv(rd, b, inputs[0])
      case Return(b1, out) => Core.RunResult(b1, out, 1)
      case Continue(b1) =>
        var rest := Run(rd, b1, inputs[1..]);
        Core.RunResult(rest.board, rest.outcome, rest.used + 1)
  }

  /** `__init__`: discover, connect, calibrate and read the calibration reports, in that order. */
  function Setup(b: Core.Board, devices: seq<Device>, inputs: seq<RecvOutcome>): (r: Core.RunResult)
    ensures r.used <= |inputs|
    ensures r.board == b || (Valid(r.board) && b.sent + CalibrationRequest() <= r.board.sent)
  {
    match DiscoverResult(b, devices, BLUETOOTH_NAME)
    case Err(e) => Core.RunResult(b, Raised(e), 0)
    case Ok(b1) =>
      var b2 := Core.Calibrate(ConnectState(b1));
      Run(Core.CalibrationReader, b2, inputs)
  }

  // ---------------------------------------------------------------- facts

  /**
   * The unguarded reads: a status frame under eight bytes, a requested
   * read-data frame under five, and a calibrated extension frame under four
   * raise IndexError and change nothing.
   */
  lemma MissingGuards(rd: Core.Reader, b: Core.Board, d: Bytes)
    requires Valid(b) && |d| >= 2
    ensures d[1] == INPUT_STATUS && |d| < 8 ==> Recv(rd, b, Data(d)) == Core.Return(b, Raised(IndexError))
    ensures d[1] == INPUT_READ_DATA && b.calibrationRequested && |d| < 5 ==>
      Recv(rd, b, Data(d)) == Core.Return(b, Raised(IndexError))
    ensures d[1] == EXTENSION_8BYTES && rd == Core.DataReader && b.calibrated && |d| < 4 ==>
      Recv(rd, b, Data(d)) == Core.Return(b, Raised(IndexError))
  {
  }

  /** Reads are never checked: an empty read is skipped and a socket error raises. */
  lemma UncheckedReads(rd: Core.Reader, b: Core.Board)
    requires Valid(b)
    ensures Recv(rd, b, Empty) == Core.Continue(b) && Recv(rd, b, Data([])) == Core.Continue(b)
    ensures Recv(rd, b, WouldBlock) == Core.Return(b, Raised(SocketError))
    ensures Recv(rd, b, OtherError) == Core.Return(b, Raised(SocketError))
  {
  }

  /**
   * On a frame of at least twelve bytes from a connected client this
   * client does exactly what the core client does: same handshake, same
   * `calibrated` gate, same button-before-mass rule, same weight curve.
   */
  lemma AgreesWithCore(rd: Core.Reader, b: Core.Board, d: Bytes)
    requires Core.Valid(b) && Valid(b) && |d| >= 12
    ensures Recv(rd, b, Data(d)) == Core.Recv(rd, b, Data(d))
  {
    assert PySlice(d, 2, 4) == d[2..4];
  }

  /**
   * `on_mass` always wraps: a calibrated extension frame of four to eleven
   * bytes without a button edge still yields MASS, decoded from the short
   * slice, where the core client returns None.
   */
  lemma ShortMassStillReported(b: Core.Board, d: Bytes)
    requires Core.Valid(b) && Valid(b) && b.calibrated
    requires 4 <= |d| < 12 && d[1] == EXTENSION_8BYTES && (d[3] == BUTTON_DOWN_MASK) == b.buttonDown
    ensures Recv(Core.DataReader, b, Data(d)) ==
      match CornerMasses(b.calibration, d[4..])
      case Err(x) => Core.Return(b, Raised(x))
      case Ok(m) => Core.Return(b, Returned(Some(Mass(m))))
    ensures Core.Recv(Core.DataReader, b, Data(d)) == Core.Return(b, Returned(None))
  {
    var e := ButtonEdge(b.buttonDown, d[2..4]);
    assert e.event == None && e.down == b.buttonDown;
    assert b.(buttonDown := e.down) == b;
    assert PySlice(d, 4, 12) == d[4..];
    assert Recv(Core.DataReader, b, Data(d)) == Extension(b, d);
    ShortMassInCore(b, d);
  }

  /** The same short frame in the main client: `get_mass` sees fewer than eight bytes. */
  lemma ShortMassInCore(b: Core.Board, d: Bytes)
    requires Core.Valid(b) && b.calibrated
    requires 4 <= |d| < 12 && d[1] == EXTENSION_8BYTES && (d[3] == BUTTON_DOWN_MASK) == b.buttonDown
    ensures Core.Recv(Core.DataReader, b, Data(d)) == Core.Return(b, Returned(None))
  {
    assert PySlice(d, 2, 4) == d[2..4];
    var e := ButtonEdge(b.buttonDown, d[2..4]);
    assert e.event == None && e.down == b.buttonDown;
    assert b.(buttonDown := e.down) == b;
    assert GetMass(b.calibration, PySlice(d, 4, 12)) == Ok(None);
    assert Core.Recv(Core.DataReader, b, Data(d)) == Core.Extension(b, d);
  }

  /**
   * Empty reads, which a blocking `recv` returns at once once the peer has
   * closed, are skipped one after another: the call never returns, and
   * when the script runs out it is still reading.
   */
  lemma {:induction false} EmptyReadsNeverReturn(rd: Core.Reader, b: Core.Board, inputs: seq<RecvOutcome>)
    requires Valid(b) && Reading(b)
    requires forall k :: 0 <= k < |inputs| ==> inputs[k] == Empty
    ensures Run(rd, b, inputs) == Core.RunResult(b, Blocked, |inputs|)
    decreases |inputs|
  {
    if inputs != [] {
      EmptyReadsNeverReturn(rd, b, inputs[1..]);
    }
  }

  /**
   * The calibration read of a running client ends blocked, with IndexError
   * or a socket error, or with the CALIBRATION response; it never returns
   * None and never reaches the weight curve.
   */
  lemma {:induction false} CalibrationRunOutcomes(b: Core.Board, inputs: seq<RecvOutcome>)
    requires Valid(b) && Reading(b)
    ensures var out := Run(Core.CalibrationReader, b, inputs).outcome;
      out == Blocked || out == Raised(IndexError) || out == Raised(SocketError)
      || (out.Returned? && out.response.Some? && out.response.value.Calibration?)
    decreases |inputs|
  {
    if inputs != [] {
      var s := Recv(Core.CalibrationReader, b, inputs[0]);
      if s.Continue? {
        CalibrationRunOutcomes(s.board, inputs[1..]);
      }
    }
  }

  /**
   * Construction raises NoBoardFound exactly when no scanned name has the
   * prefix; otherwise the client keeps the first matching address and,
   * from the reset state, writes the four calibration-start commands
   * before anything else.
   */
  lemma SetupSequence(b: Core.Board, devices: seq<Device>, inputs: seq<RecvOutcome>)
    ensures var r := Setup(b, devices, inputs);
      (r.outcome == Raised(NoBoardFound) <==> Matches(devices, BLUETOOTH_NAME) == [])
      && (Matches(devices, BLUETOOTH_NAME) == [] ==> r.board == b)
      && (Matches(devices, BLUETOOTH_NAME) != [] ==>
            r.board.boardAddress == Some(Matches(devices, BLUETOOTH_NAME)[0])
            && b.sent + CalibrationRequest() <= r.board.sent && r.board.running)
  {
    var boards := Matches(devices, BLUETOOTH_NAME);
    if boards != [] {
      var b2 := Core.Calibrate(ConnectState(b.(boardAddress := Some(boards[0]))));
      CalibrationRunOutcomes(b2, inputs);
      RunKeepsLink(Core.CalibrationReader, b2, inputs);
    }
  }

  /** A run keeps the address and `running` (it never closes anything). */
  lemma {:induction false} RunKeepsLink(rd: Core.Reader, b: Core.Board, inputs: seq<RecvOutcome>)
    requires Valid(b)
    ensures Run(rd, b, inputs).board.boardAddress == b.boardAddress
    ensures Run(rd, b, inputs).board.running == b.running
    decreases |inputs|
  {
    if Reading(b) && inputs != [] {
      var s := Recv(rd, b, inputs[0]);
      if s.Continue? {
        RunKeepsLink(rd, s.board, inputs[1..]);
      }
    }
  }

  // ---------------------------------------------------------------- class

  /** The `WiiBoard` class of this client; it has no `connected` attribute. */
  class WiiBoard {
    var boardAddress: Option<Address>
    var running: bool
    var receiveSocket: Core.Sock
    var controlSocket: Core.Sock
    var calibration: Matrix
    var calibrationRequested: bool
    var calibrated: bool
    var lightState: bool
    var buttonDown: bool
    var battery: real
    /** Every write to the control socket, oldest first. */
    var sent: seq<Bytes>

    /** The attributes as one value (`connected` is always false here). */
    function State(): Core.Board
      reads this
    {
      Core.Board(false, boardAddress, running, receiveSocket, controlSocket, calibration,
                 calibrationRequested, calibrated, lightState, buttonDown, battery, sent)
    }

    /** The object before `__init__` has run its steps; see `Init`. */
    constructor()
      ensures State() == Core.Init()
    {
      boardAddress := None;
      running := false;
      receiveSocket := Core.NoSocket;
      controlSocket := Core.NoSocket;
      calibration := PLACEHOLDER_MATRIX;
      calibrationRequested := false;
      calibrated := false;
      lightState := false;
      buttonDown := false;
      battery := 0.0;
      sent := [];
    }

    /** The body of `__init__`: an exception from any step ends construction. */
    method Init(devices: seq<Device>, inputs: seq<RecvOutcome>) returns (out: Outcome, used: nat)
      modifies this
      ensures Core.RunResult(State(), out, used) == Setup(old(State()), devices, inputs)
    {
      var err := Discover(devices, BLUETOOTH_NAME);
      if err.Some? {
        return Raised(err.value), 0;
      }
      err := Connect();
      assert err == None;
      Calibrate();
      out, used := ReadCalibrationData(inputs);
    }

    method Discover(devices: seq<Device>, prefix: string) returns (err: Option<PyError>)
      modifies this
      ensures match DiscoverResult(old(State()), devices, prefix)
        case Err(e) => err == Some(e) && State() == old(State())
        case Ok(b) => err == None && State() == b
    {
      var foundBoards := Matches(devices, prefix);
      if foundBoards == [] {
        return Some(NoBoardFound);
      }
      boardAddress := Some(foundBoards[0]);
      return None;
    }

    /** `connect`: the reset happens first, then a missing address raises. */
    method Connect() returns (err: Option<PyError>)
      modifies this
      ensures State() == ConnectState(old(State()))
      ensures err == if boardAddress == None then Some(NoBoardFound) else None
    {
      controlSocket := Core.Open;
      receiveSocket := Core.Open;
      calibration := PLACEHOLDER_MATRIX;
      calibrationRequested := false;
      calibrated := false;
      lightState := false;
      buttonDown := false;
      battery := 0.0;
      running := true;
      if boardAddress == None {
        return Some(NoBoardFound);
      }
      return None;
    }

    method Send(parts: seq<Bytes>)
      requires controlSocket == Core.Open
      modifies this
      ensures State() == old(State()).(sent := old(sent) + [Framed(parts)])
    {
      sent := sent + [Framed(parts)];
    }

    method Reporting(mode: bv8, extension: bv8)
      requires controlSocket == Core.Open
      modifies this
      ensures State() == old(State()).(sent := old(sent) + [ReportingCmd(mode, extension)])
    {
      Send([[COMMAND_REPORTING], [mode], [extension]]);
    }

    method Light(on: bool)
      requires controlSocket == Core.Open
      modifies this
      ensures State() == old(State()).(sent := old(sent) + [LightCmd(on)])
    {
      Send([[COMMAND_LIGHT], [if on then 0x10 else 0x00]]);
    }

    method Status()
      requires controlSocket == Core.Open
      modifies this
      ensures State() == old(State()).(sent := old(sent) + [StatusCmd()])
    {
      Send([[COMMAND_REQUEST_STATUS], [0x00]]);
    }

    method Calibrate()
      requires controlSocket == Core.Open
      modifies this
      ensures State() == Core.Calibrate(old(State()))
    {
      Send([[COMMAND_READ_REGISTER], CALIBRATION_REQ_PAYLOAD]);
      calibrationRequested := true;
      Send([[COMMAND_REGISTER], MASS_REQ_PAYLOAD]);
      Status();
      Light(false);
    }

    /** `check_button(state)` without a length check: fewer than two bytes raise IndexError. */
    method CheckButton(state: Bytes) returns (r: Result<Option<Response>>)
      modifies this
      ensures |state| < 2 ==> r == Err(IndexError) && State() == old(State())
      ensures |state| >= 2 ==> var e := ButtonEdge(old(buttonDown), state);
        State() == old(State()).(buttonDown := e.down)
        && r == Ok(if e.event.Some? then Some(Button(e.event.value)) else None)
    {
      if |state| < 2 {
        return Err(IndexError);
      }
      var btnState := state[1];
      if btnState == BUTTON_DOWN_MASK {
        if !buttonDown {
          buttonDown := true;
          return Ok(Some(Button(true)));
        }
      } else if buttonDown {
        buttonDown := false;
        return Ok(Some(Button(false)));
      }
      return Ok(None);
    }

    method OnStatus() returns (resp: Response)
      requires controlSocket == Core.Open
      modifies this
      ensures State() == Core.OnStatus(old(State())) && resp == Core.StatusResponse(old(State()))
    {
      Reporting(CONTINUOUS_REPORTING, EXTENSION_8BYTES);
      Light(true);
      resp := Response.Status(battery * 100.0, lightState);
    }

    method OnCalibrated() returns (resp: Response)
      requires controlSocket == Core.Open
      modifies this
      ensures State() == Core.OnCalibrated(old(State())) && resp == Calibration(old(calibration))
    {
      Light(true);
      calibrated := true;
      resp := Calibration(calibration);
    }

    method Close()
      modifies this
      ensures State() == Core.Close(old(State()))
    {
      running := false;
      if receiveSocket == Core.Open { receiveSocket := Core.Closed; }
      if controlSocket == Core.Open { controlSocket := Core.Closed; }
    }

    method StatusReport(rd: Core.Reader, data: Bytes) returns (stop: bool, out: Outcome)
      requires Valid(State()) && Reading(State())
      modifies this
      ensures StatusFrame(rd, old(State()), data) == if stop then Core.Return(State(), out) else Core.Continue(State())
    {
      if |data| < 8 {
        return true, Raised(IndexError);
      }
      battery := BatteryFraction(data[7]);
      lightState := LedOn(data[4]);
      var resp := OnStatus();
      if rd == Core.DataReader {
        return true, Returned(Some(resp));
      }
      return false, Returned(None);
    }

    method ReadDataReport(data: Bytes) returns (stop: bool, out: Outcome)
      requires Valid(State()) && Reading(State())
      modifies this
      ensures ReadDataFrame(old(State()), data) == if stop then Core.Return(State(), out) else Core.Continue(State())
    {
      if calibrationRequested {
        if |data| < 5 {
          return true, Raised(IndexError);
        }
        var length := BlockLength(data);
        var payload := PySlice(data, 7, 7 + length);
        if length == 16 {
          calibration := [RowOf(PySlice(payload, 0, 8)), RowOf(PySlice(payload, 8, 16)), PLACEHOLDER_ROW];
        } else if length < 16 {
          calibration := calibration[2 := RowOf(PySlice(payload, 0, 8))];
          calibrationRequested := false;
          var resp := OnCalibrated();
          return true, Returned(Some(resp));
        }
      }
      return false, Returned(None);
    }

    method ExtensionReport(data: Bytes) returns (out: Outcome)
      requires Valid(State())
      modifies this
      ensures Extension(old(State()), data) == Core.Return(State(), out)
    {
      var buttonRes := CheckButton(PySlice(data, 2, 4));
      match buttonRes {
        case Err(e) => return Raised(e);
        case Ok(ev) =>
          if ev.Some? {
            return Returned(ev);
          }
      }
      assert PySlice(data, 2, 4) == data[2..4];
      match CornerMasses(calibration, PySlice(data, 4, 12)) {
        case Err(e) => return Raised(e);
        case Ok(m) => return Returned(Some(Mass(m)));
      }
    }

    method Receive(rd: Core.Reader, o: RecvOutcome) returns (stop: bool, out: Outcome)
      requires Valid(State()) && Reading(State())
      modifies this
      ensures Recv(rd, old(State()), o) == if stop then Core.Return(State(), out) else Core.Continue(State())
    {
      out := Returned(None);
      var data: Bytes;
      match o {
        case Empty => return false, out;
        case WouldBlock => return true, Raised(SocketError);
        case OtherError => return true, Raised(SocketError);
        case Data(d) => data := d;
      }
      if |data| < 2 {
        return false, out;
      }
      var inputType := data[1];
      if inputType == INPUT_STATUS {
        stop, out := StatusReport(rd, data);
      } else if inputType == INPUT_READ_DATA {
        stop, out := ReadDataReport(data);
      } else if inputType == EXTENSION_8BYTES && rd == Core.DataReader {
        if !calibrated {
          return false, out;
        }
        stop := true;
        out := ExtensionReport(data);
      } else {
        stop := false;
      }
    }

    /** The loop shared by `readCalibrationData` and `read_data`. */
    method Read(rd: Core.Reader, inputs: seq<RecvOutcome>) returns (out: Outcome, used: nat)
      requires Valid(State())
      modifies this
      ensures Core.RunResult(State(), out, used) == Run(rd, old(State()), inputs)
    {
      used := 0;
      while running && receiveSocket != Core.NoSocket
        invariant Valid(State()) && used <= |inputs|
        invariant Run(rd, old(State()), inputs) == Core.Shifted(Run(rd, State(), inputs[used..]), used)
        decreases |inputs| - used
      {
        if used == |inputs| {
          // `recv` on a blocking socket waits for data that never comes
          return Blocked, used;
        }
        assert inputs[used..][1..] == inputs[used + 1..];
        var stop;
        stop, out := Receive(rd, inputs[used]);
        used := used + 1;
        if stop {
          return;
        }
      }
      return Returned(None), used;
    }

    method ReadCalibrationData(inputs: seq<RecvOutcome>) returns (out: Outcome, used: nat)
      requires Valid(State())
      modifies this
      ensures Core.RunResult(State(), out, used) == Run(Core.CalibrationReader, old(State()), inputs)
    {
      out, used := Read(Core.CalibrationReader, inputs);
    }

    method ReadData(inputs: seq<RecvOutcome>) returns (out: Outcome, used: nat)
      requires Valid(State())
      modifies this
      ensures Core.RunResult(State(), out, used) == Run(Core.DataReader, old(State()), inputs)
    {
      out, used := Read(Core.DataReader, inputs);
    }
  }
}
