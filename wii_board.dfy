/**
 * The `WiiBoard` class of `src/wii_balance/WiiBoard.py`, with the
 * attributes it updates in place. Every method is proved against the
 * value-level step functions of module WiiSession, so the lemmas there
 * describe what these methods do.
 */
module WiiClient {
  import opened Wrappers
  import opened WiiProtocol
  import opened WiiSession

  class WiiBoard {
    var connected: bool
    var boardAddress: Option<Address>
    var running: bool
    var receiveSocket: Sock
    var controlSocket: Sock
    var calibration: Matrix
    var calibrationRequested: bool
    var calibrated: bool
    var lightState: bool
    var buttonDown: bool
    var battery: real
    /** Every write to the control socket, oldest first. */
    var sent: seq<Bytes>

    /** The attributes as one value. */
    function State(): Board
      reads this
    {
      Board(connected, boardAddress, running, receiveSocket, controlSocket, calibration,
            calibrationRequested, calibrated, lightState, buttonDown, battery, sent)
    }

    constructor()
      ensures State() == Init()
    {
      connected := false;
      boardAddress := None;
      running := false;
      receiveSocket := NoSocket;
      controlSocket := NoSocket;
      calibration := PLACEHOLDER_MATRIX;
      calibrationRequested := false;
      calibrated := false;
      lightState := false;
      buttonDown := false;
      battery := 0.0;
      sent := [];
    }

    /** `discover(prefix=...)` over the scan result `devices`. */
    method Discover(devices: seq<Device>, prefix: string) returns (found: bool)
      modifies this
      ensures Discovery(State(), found) == WiiSession.Discover(old(State()), devices, prefix)
    {
      var foundBoards := Matches(devices, prefix);
      if foundBoards == [] {
        return false;
      }
      boardAddress := Some(foundBoards[0]);
      return true;
    }

    /** `connect`; opening and connecting the sockets is assumed to succeed. */
    method Connect()
      modifies this
      ensures State() == WiiSession.Connect(old(State()))
    {
      if boardAddress == None {
        return;
      }
      ghost var target := WiiSession.Connect(State());
      controlSocket := Open;
      receiveSocket := Open;
      calibration := PLACEHOLDER_MATRIX;
      calibrationRequested := false;
      calibrated := false;
      lightState := false;
      buttonDown := false;
      battery := 0.0;
      running := true;
      connected := true;
      assert State() == target;
    }

    /** `send(*parts)`: one framed write on the live control socket. */
    method Send(parts: seq<Bytes>)
      requires controlSocket == Open
      modifies this
      ensures State() == old(State()).(sent := old(sent) + [Framed(parts)])
    {
      sent := sent + [Framed(parts)];
    }

    method Reporting(mode: bv8, extension: bv8)
      requires controlSocket == Open
      modifies this
      ensures State() == old(State()).(sent := old(sent) + [ReportingCmd(mode, extension)])
    {
      Send([[COMMAND_REPORTING], [mode], [extension]]);
    }

    method Light(on: bool)
      requires controlSocket == Open
      modifies this
      ensures State() == old(State()).(sent := old(sent) + [LightCmd(on)])
    {
      Send([[COMMAND_LIGHT], [if on then 0x10 else 0x00]]);
    }

    method Status()
      requires controlSocket == Open
      modifies this
      ensures State() == old(State()).(sent := old(sent) + [StatusCmd()])
    {
      Send([[COMMAND_REQUEST_STATUS], [0x00]]);
    }

    method Calibrate()
      requires controlSocket == Open
      modifies this
      ensures State() == WiiSession.Calibrate(old(State()))
    {
      Send([[COMMAND_READ_REGISTER], CALIBRATION_REQ_PAYLOAD]);
      calibrationRequested := true;
      Send([[COMMAND_REGISTER], MASS_REQ_PAYLOAD]);
      Status();
      Light(false);
    }

    /** `check_button(state)`: updates `button_down` and returns the BUTTON response of an edge. */
    method CheckButton(state: Bytes) returns (resp: Option<Response>)
      modifies this
      ensures var e := ButtonEdge(old(buttonDown), state);
        State() == old(State()).(buttonDown := e.down)
        && resp == if e.event.Some? then Some(Button(e.event.value)) else None
    {
      if |state| < 2 {
        return None;
      }
      var btnState := state[1];
      if btnState == BUTTON_DOWN_MASK {
        if !buttonDown {
          buttonDown := true;
          return Some(Button(true));
        }
      } else if buttonDown {
        buttonDown := false;
        return Some(Button(false));
      }
      return None;
    }

    method OnStatus() returns (resp: Response)
      requires controlSocket == Open
      modifies this
      ensures State() == WiiSession.OnStatus(old(State())) && resp == StatusResponse(old(State()))
    {
      Reporting(CONTINUOUS_REPORTING, EXTENSION_8BYTES);
      Light(true);
      resp := Response.Status(battery * 100.0, lightState);
    }

    method OnCalibrated() returns (resp: Response)
      requires controlSocket == Open
      modifies this
      ensures State() == WiiSession.OnCalibrated(old(State())) && resp == Calibration(old(calibration))
    {
      Light(true);
      calibrated := true;
      resp := Calibration(calibration);
    }

    method Close()
      modifies this
      ensures State() == WiiSession.Close(old(State()))
    {
      running := false;
      if receiveSocket == Open { receiveSocket := Closed; }
      if controlSocket == Open { controlSocket := Closed; }
    }

    /** Both sockets set to `None` (the value `.close()` returns) and `connected` cleared. */
    method DropLink()
      modifies this
      ensures State() == Disconnect(old(State()))
    {
      receiveSocket := NoSocket;
      controlSocket := NoSocket;
      connected := false;
    }

    /** The status branch of a reading loop. */
    method StatusReport(rd: Reader, data: Bytes) returns (stop: bool, out: Outcome)
      requires WiiSession.Valid(State()) && Reading(State()) && |data| >= 2
      modifies this
      ensures StatusFrame(rd, old(State()), data) == if stop then Return(State(), out) else Continue(State())
    {
      if |data| < 8 {
        return true, Returned(None);
      }
      battery := BatteryFraction(data[7]);
      lightState := LedOn(data[4]);
      var resp := OnStatus();
      if rd == DataReader {
        return true, Returned(Some(resp));
      }
      return false, Returned(None);
    }

    /** The read-data branch of a reading loop: the calibration handshake. */
    method ReadDataReport(data: Bytes) returns (stop: bool, out: Outcome)
      requires WiiSession.Valid(State()) && Reading(State()) && |data| >= 2
      modifies this
      ensures ReadDataFrame(old(State()), data) == if stop then Return(State(), out) else Continue(State())
    {
      if |data| < 8 {
        return true, Returned(None);
      }
      if calibrationRequested {
        var length := BlockLength(data);
        var payload := PySlice(data, 7, 7 + length);
        if length == 16 {
          calibration := [RowOf(PySlice(payload, 0, 8)), RowOf(PySlice(payload, 8, 16)), PLACEHOLDER_ROW];
        } else if length < 16 {
          calibration := calibration[2 := RowOf(PySlice(payload, 0, 8))];
          calibrationRequested := false;
          var resp := OnCalibrated();
          return true, Returned(Some(resp));
        }
      }
      return false, Returned(None);
    }

    /** The extension branch of `read_data` once calibrated: button first, then masses. */
    method ExtensionReport(data: Bytes) returns (out: Outcome)
      requires WiiSession.Valid(State())
      modifies this
      ensures Extension(old(State()), data) == Return(State(), out)
    {
      var buttonRes := CheckButton(PySlice(data, 2, 4));
      if buttonRes.Some? {
        return Returned(buttonRes);
      }
      match GetMass(calibration, PySlice(data, 4, 12)) {
        case Err(e) => return Raised(e);
        case Ok(m) => return Returned(OnMass(m));
      }
    }

    /** One turn of a reading loop: `stop` says the call returns `out`. */
    method Receive(rd: Reader, o: RecvOutcome) returns (stop: bool, out: Outcome)
      requires WiiSession.Valid(State()) && Reading(State())
      modifies this
      ensures Recv(rd, old(State()), o) == if stop then Return(State(), out) else Continue(State())
    {
      out := Returned(None);
      var data: Bytes;
      match o {
        case Empty =>
          DropLink();
          return true, out;
        case WouldBlock =>
          DropLink();
          return true, out;
        case OtherError =>
          return true, out;
        case Data(d) =>
          if d == [] {
            DropLink();
            return true, out;
          }
          data := d;
      }
      if |data| < 2 {
        return false, out;
      }
      var inputType := data[1];
      if inputType == INPUT_STATUS {
        stop, out := StatusReport(rd, data);
      } else if inputType == INPUT_READ_DATA {
        stop, out := ReadDataReport(data);
      } else if inputType == EXTENSION_8BYTES && rd == DataReader {
        if !calibrated {
          return false, out;
        }
        stop := true;
        out := ExtensionReport(data);
      } else {
        stop := false;
      }
    }

    /** The loop shared by `readCalibrationData` and `read_data`. */
    method Read(rd: Reader, inputs: seq<RecvOutcome>) returns (out: Outcome, used: nat)
      requires WiiSession.Valid(State())
      modifies this
      ensures RunResult(State(), out, used) == Run(rd, old(State()), inputs)
    {
      used := 0;
      while running && receiveSocket != NoSocket && connected
        invariant WiiSession.Valid(State()) && used <= |inputs|
        invariant Run(rd, old(State()), inputs) == Shifted(Run(rd, State(), inputs[used..]), used)
        decreases |inputs| - used
      {
        if used == |inputs| {
          // the next `recv` times out
          return Returned(None), used;
        }
        ghost var before := State();
        StepValid(rd, before, inputs[used]);
        assert inputs[used..][1..] == inputs[used + 1..];
        var stop;
        stop, out := Receive(rd, inputs[used]);
        used := used + 1;
        if stop {
          return;
        }
      }
      return Returned(None), used;
    }

    method ReadCalibrationData(inputs: seq<RecvOutcome>) returns (out: Outcome, used: nat)
      requires WiiSession.Valid(State())
      modifies this
      ensures RunResult(State(), out, used) == Run(CalibrationReader, old(State()), inputs)
    {
      out, used := Read(CalibrationReader, inputs);
    }

    method ReadData(inputs: seq<RecvOutcome>) returns (out: Outcome, used: nat)
      requires WiiSession.Valid(State())
      modifies this
      ensures RunResult(State(), out, used) == Run(DataReader, old(State()), inputs)
    {
      out, used := Read(DataReader, inputs);
    }

    /** `connectToBoard` with the scan result and the calibration-read script as inputs. */
    method ConnectToBoard(devices: seq<Device>, inputs: seq<RecvOutcome>)
      requires WiiSession.Valid(State())
      modifies this
      ensures State() == WiiSession.ConnectToBoard(old(State()), devices, inputs)
    {
      if !connected {
        var found := Discover(devices, BLUETOOTH_NAME);
        if found {
          Connect();
        }
        if connected {
          Calibrate();
          var _, _ := ReadCalibrationData(inputs);
        }
      }
    }
  }
}
