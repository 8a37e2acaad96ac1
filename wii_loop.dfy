/**
 * The oldest client, `src/wii-balance/wiiBoard.py`: a `Wiiboard` whose
 * `loop` never returns a value but calls the `on_*` hooks (meant to be
 * overridden), has no `calibrated` or `connected` flag, checks no frame
 * length and uses a blocking socket. The hooks' calls are kept in a
 * `notified` log so that the loop's effect can be stated.
 */
module WiiLoop {
  import opened Wrappers
  import opened WiiProtocol
  import Core = WiiSession

  /** The attributes of a `Wiiboard`, plus the control-socket writes and the hook calls. */
  datatype Pad = Pad(
    running: bool,
    receiveSocket: Core.Sock,
    controlSocket: Core.Sock,
    calibration: Matrix,
    calibrationRequested: bool,
    lightState: bool,
    buttonDown: bool,
    battery: real,
    sent: seq<Bytes>,
    notified: seq<Response>)

  predicate Valid(p: Pad)
  {
    IsMatrix(p.calibration) && (p.running ==> p.receiveSocket == Core.Open && p.controlSocket == Core.Open)
  }

  predicate Reading(p: Pad)
  {
    p.running && p.receiveSocket != Core.NoSocket
  }

  /** `__init__` before the optional `connect`: both sockets exist and the loop may run. */
  function Fresh(): (p: Pad)
    ensures Valid(p) && Reading(p)
  {
    Pad(true, Core.Open, Core.Open, PLACEHOLDER_MATRIX, false, false, false, 0.0, [], [])
  }

  /** `connect(address)`: the four calibration-start writes, the request flag set after the first. */
  function Connected(p: Pad): (r: Pad)
    ensures r.calibrationRequested && p.sent < r.sent && |r.sent| == |p.sent| + 4
    ensures r.(sent := p.sent, calibrationRequested := p.calibrationRequested) == p
    ensures Valid(p) ==> Valid(r)
  {
    p.(sent := p.sent + CalibrationRequest(), calibrationRequested := true)
  }

  /**
   * `check_button(state)` as written: `state` is a bytes slice and the
   * test `state == BUTTON_DOWN_MASK` compares it with an int, which is
   * never true in Python. Only the release branch is reachable.
   */
  function CheckButtonAsWritten(down: bool, state: Bytes): (r: Edge)
    ensures r.event != Some(true)
  {
    if down then Edge(false, Some(false)) else Edge(down, None)
  }

  /** Starting released, as `__init__` does, the as-written check never reports an edge. */
  lemma {:induction false} ButtonNeverFires(states: seq<Bytes>)
    ensures forall k :: 0 <= k < |states| ==>
      CheckButtonAsWritten(AsWrittenDown(states[..k]), states[k]).event == None
    ensures !AsWrittenDown(states)
  {
    AsWrittenStaysUp(states);
    forall k | 0 <= k < |states|
      ensures CheckButtonAsWritten(AsWrittenDown(states[..k]), states[k]).event == None
    {
      AsWrittenStaysUp(states[..k]);
    }
  }

  /** `button_down` after feeding `states` to the as-written check from the initial state. */
  function AsWrittenDown(states: seq<Bytes>): bool
  {
    if states == [] then false
    else CheckButtonAsWritten(AsWrittenDown(states[..|states| - 1]), states[|states| - 1]).down
  }

  lemma {:induction false} AsWrittenStaysUp(states: seq<Bytes>)
    ensures !AsWrittenDown(states)
  {
    if states != [] {
      AsWrittenStaysUp(states[..|states| - 1]);
    }
  }

  /** One turn of `loop`: go round again, or leave it with an exception. */
  datatype Turn = Next(pad: Pad) | Stop(pad: Pad, error: PyError)

  function PadOf(t: Turn): Pad
  {
    match t
    case Next(p) => p
    case Stop(p, _) => p
  }

  /** A turn keeps the sockets and `running`, the matrix shape, and only appends to the logs. */
  predicate SameLink(p: Pad, q: Pad)
  {
    q.running == p.running && q.receiveSocket == p.receiveSocket && q.controlSocket == p.controlSocket
    && IsMatrix(q.calibration) && p.sent <= q.sent && p.notified <= q.notified
  }

  /** A status report: battery and LED, the status reply, the `on_status` hook. */
  function StatusFrame(p: Pad, data: Bytes): (r: Turn)
    requires IsMatrix(p.calibration)
    ensures SameLink(p, PadOf(r))
  {
    if |data| < 8 then Stop(p, IndexError)
    else
      var q := p.(battery := BatteryFraction(data[7]), lightState := LedOn(data[4]));
      Next(q.(sent := q.sent + StatusReply(), notified := q.notified + [Status(q.battery * 100.0, q.lightState)]))
  }

  /** A read-data report while calibration is requested: the shared handshake, and no `calibrated` flag. */
  function ReadDataFrame(p: Pad, data: Bytes): (r: Turn)
    requires IsMatrix(p.calibration)
    ensures SameLink(p, PadOf(r))
  {
    if !p.calibrationRequested then Next(p)
    else if |data| < 5 then Stop(p, IndexError)
    else
      var blk := ReadBlock(p.calibration, data);
      if !blk.complete then Next(p.(calibration := blk.matrix))
      else Next(p.(calibration := blk.matrix, calibrationRequested := false,
                   sent := p.sent + [LightCmd(true)], notified := p.notified + [Calibration(blk.matrix)]))
  }

  /**
   * An extension report, decoded whether or not calibration has finished:
   * the button check as written (`CheckButtonAsWritten`), then the masses,
   * whose decoding raises on a placeholder cell.
   */
  function ExtensionFrame(p: Pad, data: Bytes): (r: Turn)
    requires IsMatrix(p.calibration)
    ensures SameLink(p, PadOf(r))
  {
    var e := CheckButtonAsWritten(p.buttonDown, PySlice(data, 2, 4));
    var q := p.(buttonDown := e.down,
                notified := p.notified + if e.event.Some? then [Button(e.event.value)] else []);
    match CornerMasses(p.calibration, PySlice(data, 4, 12))
    case Err(x) => Stop(q, x)
    case Ok(m) => Next(q.(notified := q.notified + [Mass(m)]))
  }

  function Frame(p: Pad, data: Bytes): (r: Turn)
    requires IsMatrix(p.calibration)
    ensures SameLink(p, PadOf(r))
  {
    if |data| < 2 then Next(p)
    else if data[1] == INPUT_STATUS then StatusFrame(p, data)
    else if data[1] == INPUT_READ_DATA then ReadDataFrame(p, data)
    else if data[1] == EXTENSION_8BYTES then ExtensionFrame(p, data)
    else Next(p)
  }

  /** One `recv`: an empty read is a short frame, and a socket error propagates. */
  function Recv(p: Pad, o: RecvOutcome): (r: Turn)
    requires IsMatrix(p.calibration)
    ensures SameLink(p, PadOf(r))
  {
    match o
    case Data(d) => Frame(p, d)
    case Empty => Next(p)
    case WouldBlock => Stop(p, SocketError)
    case OtherError => Stop(p, SocketError)
  }

  /** How `loop` ended (it has no return value), and the reads it consumed. */
  datatype LoopResult = LoopResult(pad: Pad, outcome: Outcome, used: nat)

  function Loop(p: Pad, inputs: seq<RecvOutcome>): (r: LoopResult)
    requires Valid(p)
    ensures Valid(r.pad) && r.used <= |inputs| && SameLink(p, r.pad)
    decreases |inputs|
  {
    if !Reading(p) then LoopResult(p, Returned(None), 0)
    else if inputs == [] then LoopResult(p, Blocked, 0)
    else
      match Recv(p, inputs[0])
      case Stop(q, e) => LoopResult(q, Raised(e), 1)
      case Next(q) =>
        var rest := Loop(q, inputs[1..]);
        LoopResult(rest.pad, rest.outcome, rest.used + 1)
  }

  // ---------------------------------------------------------------- facts

  /** `connect` writes the same four commands as the other clients and requests calibration. */
  lemma ConnectWrites(p: Pad)
    ensures Connected(p).sent == p.sent + [
      [0x52, 0x17, 0x04, 0xA4, 0x00, 0x24, 0x00, 0x18],
      [0x52, 0x16, 0x04, 0xA4, 0x00, 0x40, 0x00],
      [0x52, 0x15, 0x00],
      [0x52, 0x11, 0x00]]
    ensures Connected(p).calibrationRequested
    ensures Connected(p).(sent := p.sent, calibrationRequested := p.calibrationRequested) == p
  {
    CalibrationRequestBytes();
  }

  /**
   * `loop` returns only when it is not (or no longer) reading, and then
   * with no value; otherwise it raises or is still waiting in `recv`.
   */
  lemma {:induction false} LoopNeverReturnsValue(p: Pad, inputs: seq<RecvOutcome>)
    requires Valid(p)
    ensures var r := Loop(p, inputs);
      (r.outcome.Returned? <==> !Reading(p)) && (r.outcome.Returned? ==> r.outcome.response == None)
    decreases |inputs|
  {
    if Reading(p) && inputs != [] {
      var t := Recv(p, inputs[0]);
      if t.Next? {
        assert Reading(t.pad);
        LoopNeverReturnsValue(t.pad, inputs[1..]);
      }
    }
  }

  /** A full status report sets battery and LED, resends `52 12 04 32` and `52 11 10`, and notifies STATUS. */
  lemma StatusReport(p: Pad, d: Bytes)
    requires Valid(p) && |d| >= 8 && d[1] == INPUT_STATUS
    ensures var battery := (d[7] as int) as real / 200.0;
      var light := d[4] & 0x10 == 0x10;
      Recv(p, Data(d)) == Next(p.(battery := battery, lightState := light,
        sent := p.sent + [[0x52, 0x12, 0x04, 0x32], [0x52, 0x11, 0x10]],
        notified := p.notified + [Status(battery * 100.0, light)]))
  {
    CalibrationRequestBytes();
  }

  /**
   * The handshake of this client: a 16-byte block sets rows 0 and 1 and
   * resets row 2, a shorter one sets row 2 and clears the request; there is
   * no `calibrated` flag, and the loop goes on in both cases.
   */
  lemma Handshake(p: Pad, d: Bytes)
    requires Valid(p) && p.calibrationRequested && |d| >= 5 && d[1] == INPUT_READ_DATA
    ensures d[4] >= 0xF0 ==>
      Recv(p, Data(d)) == Next(p.(calibration := [RowOf(PySlice(d, 7, 15)), RowOf(PySlice(d, 15, 23)), PLACEHOLDER_ROW]))
    ensures d[4] < 0xF0 ==>
      var m := p.calibration[2 := RowOf(PySlice(d, 7, 7 + Min(8, d[4] as int / 16 + 1)))];
      Recv(p, Data(d)) == Next(p.(calibration := m, calibrationRequested := false,
        sent := p.sent + [[0x52, 0x11, 0x10]], notified := p.notified + [Calibration(m)]))
  {
    if d[4] >= 0xF0 {
      FirstBlockRows(p.calibration, d);
    } else {
      LastBlockRow(p.calibration, d);
    }
  }

  /** No hook call of a stretch of the log is `on_pressed` or `on_released`. */
  predicate NoButtonAfter(a: seq<Response>, b: seq<Response>)
  {
    a <= b && forall k :: |a| <= k < |b| ==> !b[k].Button?
  }

  lemma NoButtonChain(a: seq<Response>, b: seq<Response>, c: seq<Response>)
    requires NoButtonAfter(a, b) && NoButtonAfter(b, c)
    ensures NoButtonAfter(a, c)
  {
    forall k | |a| <= k < |c|
      ensures !c[k].Button?
    {
      if k < |b| {
        assert c[k] == b[k];
      }
    }
  }

  /** One turn from the released state keeps it released and calls neither button hook. */
  lemma StepNoButton(p: Pad, o: RecvOutcome)
    requires Valid(p) && !p.buttonDown
    ensures !PadOf(Recv(p, o)).buttonDown && NoButtonAfter(p.notified, PadOf(Recv(p, o)).notified)
  {
    if o.Data? && |o.bytes| >= 2 {
      var d := o.bytes;
      assert Recv(p, o) == Frame(p, d);
      if d[1] == INPUT_STATUS {
        StatusNoButton(p, d);
      } else if d[1] == INPUT_READ_DATA {
        ReadDataNoButton(p, d);
      } else if d[1] == EXTENSION_8BYTES {
        ExtensionNoButton(p, d);
      }
    }
  }

  lemma StatusNoButton(p: Pad, d: Bytes)
    requires Valid(p) && !p.buttonDown
    ensures !PadOf(StatusFrame(p, d)).buttonDown && NoButtonAfter(p.notified, PadOf(StatusFrame(p, d)).notified)
  {
  }

  lemma ReadDataNoButton(p: Pad, d: Bytes)
    requires Valid(p) && !p.buttonDown
    ensures !PadOf(ReadDataFrame(p, d)).buttonDown && NoButtonAfter(p.notified, PadOf(ReadDataFrame(p, d)).notified)
  {
  }

  lemma ExtensionNoButton(p: Pad, d: Bytes)
    requires Valid(p) && !p.buttonDown
    ensures !PadOf(ExtensionFrame(p, d)).buttonDown && NoButtonAfter(p.notified, PadOf(ExtensionFrame(p, d)).notified)
  {
    assert CheckButtonAsWritten(p.buttonDown, PySlice(d, 2, 4)) == Edge(false, None);
    assert p.(buttonDown := false, notified := p.notified + []) == p;
    match CornerMasses(p.calibration, PySlice(d, 4, 12)) {
      case Err(x) =>
        assert ExtensionFrame(p, d) == Stop(p, x);
      case Ok(m) =>
        assert ExtensionFrame(p, d) == Next(p.(notified := p.notified + [Mass(m)]));
    }
  }

  /**
   * With the check as written, a `Wiiboard` that starts released, as every
   * new one does, never calls `on_pressed` or `on_released` and keeps
   * `button_down` False, whatever frames its loop reads.
   */
  lemma {:induction false} LoopNoButtons(p: Pad, inputs: seq<RecvOutcome>)
    requires Valid(p) && !p.buttonDown
    ensures !Loop(p, inputs).pad.buttonDown && NoButtonAfter(p.notified, Loop(p, inputs).pad.notified)
    decreases |inputs|
  {
    if Reading(p) && inputs != [] {
      StepNoButton(p, inputs[0]);
      var t := Recv(p, inputs[0]);
      if t.Next? {
        LoopNoButtons(t.pad, inputs[1..]);
        NoButtonChain(p.notified, t.pad.notified, Loop(t.pad, inputs[1..]).pad.notified);
      }
    }
  }

  /**
   * Extension reports are decoded before calibration has finished: while
   * any band of the top-right column is still the placeholder, every
   * extension report raises TypeError.
   */
  lemma UncalibratedExtensionRaises(p: Pad, d: Bytes)
    requires Valid(p) && |d| >= 2 && d[1] == EXTENSION_8BYTES
    requires exists i :: 0 <= i < 3 && p.calibration[i][TOP_RIGHT] == Placeholder
    ensures Recv(p, Data(d)).Stop? && Recv(p, Data(d)).error == TypeError
  {
    assert CornerResult(p.calibration, PySlice(d, 4, 12), TOP_RIGHT) == Err(TypeError);
  }

  // ---------------------------------------------------------------- class

  /** The `Wiiboard` class of this client. */
  class Wiiboard {
    var running: bool
    var receiveSocket: Core.Sock
    var controlSocket: Core.Sock
    var calibration: Matrix
    var calibrationRequested: bool
    var lightState: bool
    var buttonDown: bool
    var battery: real
    /** Every write to the control socket, oldest first. */
    var sent: seq<Bytes>
    /** Every call of an `on_*` hook with its data, oldest first. */
    var notified: seq<Response>

    function State(): Pad
      reads this
    {
      Pad(running, receiveSocket, controlSocket, calibration, calibrationRequested,
          lightState, buttonDown, battery, sent, notified)
    }

    /** `Wiiboard(address)`: connects at once when an address is given. */
    constructor(address: Option<Address>)
      ensures State() == if address.Some? then Connected(Fresh()) else Fresh()
    {
      controlSocket := Core.Open;
      receiveSocket := Core.Open;
      calibration := PLACEHOLDER_MATRIX;
      calibrationRequested := false;
      lightState := false;
      buttonDown := false;
      battery := 0.0;
      running := true;
      sent := [];
      notified := [];
      new;
      if address.Some? {
        Connect(address.value);
      }
    }

    /** `connect(address)`; connecting the sockets is assumed to succeed. */
    method Connect(address: Address)
      requires controlSocket == Core.Open
      modifies this
      ensures State() == Connected(old(State()))
    {
      Send([[COMMAND_READ_REGISTER], CALIBRATION_REQ_PAYLOAD]);
      calibrationRequested := true;
      Send([[COMMAND_REGISTER], MASS_REQ_PAYLOAD]);
      Status();
      Light(false);
    }

    method Send(parts: seq<Bytes>)
      requires controlSocket == Core.Open
      modifies this
      ensures State() == old(State()).(sent := old(sent) + [Framed(parts)])
    {
      sent := sent + [Framed(parts)];
    }

    method Reporting(mode: bv8, extension: bv8)
      requires controlSocket == Core.Open
      modifies this
      ensures State() == old(State()).(sent := old(sent) + [ReportingCmd(mode, extension)])
    {
      Send([[COMMAND_REPORTING], [mode], [extension]]);
    }

    method Light(on: bool)
      requires controlSocket == Core.Open
      modifies this
      ensures State() == old(State()).(sent := old(sent) + [LightCmd(on)])
    {
      Send([[COMMAND_LIGHT], [if on then 0x10 else 0x00]]);
    }

    method Status()
      requires controlSocket == Core.Open
      modifies this
      ensures State() == old(State()).(sent := old(sent) + [StatusCmd()])
    {
      Send([[COMMAND_REQUEST_STATUS], [0x00]]);
    }

    /**
     * `check_button` as written: the bytes `state` never equals the int
     * mask, so the press branch is dead and only the release branch runs.
     */
    method CheckButton(state: Bytes)
      modifies this
      ensures var e := CheckButtonAsWritten(old(buttonDown), state);
        State() == old(State()).(buttonDown := e.down,
          notified := old(notified) + if e.event.Some? then [Button(e.event.value)] else [])
    {
      if buttonDown {
        buttonDown := false;
        notified := notified + [Button(false)];
      }
    }

    method OnStatus()
      requires controlSocket == Core.Open
      modifies this
      ensures State() == old(State()).(sent := old(sent) + StatusReply(),
        notified := old(notified) + [Response.Status(old(battery) * 100.0, old(lightState))])
    {
      Reporting(CONTINUOUS_REPORTING, EXTENSION_8BYTES);
      Light(true);
      notified := notified + [Response.Status(battery * 100.0, lightState)];
    }

    method Close()
      modifies this
      ensures State() == old(State()).(running := false,
        receiveSocket := if old(receiveSocket) == Core.Open then Core.Closed else old(receiveSocket),
        controlSocket := if old(controlSocket) == Core.Open then Core.Closed else old(controlSocket))
    {
      running := false;
      if receiveSocket == Core.Open { receiveSocket := Core.Closed; }
      if controlSocket == Core.Open { controlSocket := Core.Closed; }
    }

    method ReadDataReport(data: Bytes) returns (err: Option<PyError>)
      requires Valid(State()) && Reading(State())
      modifies this
      ensures ReadDataFrame(old(State()), data) == if err.Some? then Stop(State(), err.value) else Next(State())
    {
      if calibrationRequested {
        if |data| < 5 {
          return Some(IndexError);
        }
        var length := BlockLength(data);
        var payload := PySlice(data, 7, 7 + length);
        if length == 16 {
          calibration := [RowOf(PySlice(payload, 0, 8)), RowOf(PySlice(payload, 8, 16)), PLACEHOLDER_ROW];
        } else if length < 16 {
          calibration := calibration[2 := RowOf(PySlice(payload, 0, 8))];
          calibrationRequested := false;
          Light(true);
          notified := notified + [Calibration(calibration)];
        }
      }
      return None;
    }

    method ExtensionReport(data: Bytes) returns (err: Option<PyError>)
      requires Valid(State())
      modifies this
      ensures ExtensionFrame(old(State()), data) == if err.Some? then Stop(State(), err.value) else Next(State())
    {
      CheckButton(PySlice(data, 2, 4));
      match CornerMasses(calibration, PySlice(data, 4, 12)) {
        case Err(e) => return Some(e);
        case Ok(m) =>
          notified := notified + [Mass(m)];
          return None;
      }
    }

    /** One turn of `loop`. */
    method Receive(o: RecvOutcome) returns (err: Option<PyError>)
      requires Valid(State()) && Reading(State())
      modifies this
      ensures Recv(old(State()), o) == if err.Some? then Stop(State(), err.value) else Next(State())
    {
      var data: Bytes;
      match o {
        case Empty => return None;
        case WouldBlock => return Some(SocketError);
        case OtherError => return Some(SocketError);
        case Data(d) => data := d;
      }
      if |data| < 2 {
        return None;
      }
      var inputType := data[1];
      if inputType == INPUT_STATUS {
        if |data| < 8 {
          return Some(IndexError);
        }
        battery := BatteryFraction(data[7]);
        lightState := LedOn(data[4]);
        OnStatus();
        return None;
      } else if inputType == INPUT_READ_DATA {
        err := ReadDataReport(data);
      } else if inputType == EXTENSION_8BYTES {
        err := ExtensionReport(data);
      } else {
        err := None;
      }
    }

    /** `loop` over the scripted `recv` outcomes. */
    method RunLoop(inputs: seq<RecvOutcome>) returns (out: Outcome, used: nat)
      requires Valid(State())
      modifies this
      ensures LoopResult(State(), out, used) == Loop(old(State()), inputs)
    {
      used := 0;
      while running && receiveSocket != Core.NoSocket
        invariant Valid(State()) && used <= |inputs|
        invariant var r := Loop(State(), inputs[used..]);
          Loop(old(State()), inputs) == LoopResult(r.pad, r.outcome, r.used + used)
        decreases |inputs| - used
      {
        if used == |inputs| {
          // `recv` on a blocking socket waits for data that never comes
          return Blocked, used;
        }
        assert inputs[used..][1..] == inputs[used + 1..];
        var err := Receive(inputs[used]);
        used := used + 1;
        if err.Some? {
          return Raised(err.value), used;
        }
      }
      return Returned(None), used;
    }
  }
}
