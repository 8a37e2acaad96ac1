/**
 * The value-level part of the balance-board client: command framing, the
 * calibration matrix and its handshake, the button edge rule, the weight
 * curve and the discovery filter. Everything here is an expression over
 * bytes; the stateful clients in the other modules are proved against it.
 */
module WiiProtocol {
  import opened Wrappers

  type Bytes = seq<bv8>

  // Command header, opcodes and report tags.
  const SET_REPORT: bv8 := 0x52
  const CONTINUOUS_REPORTING: bv8 := 0x04
  const COMMAND_LIGHT: bv8 := 0x11
  const COMMAND_REPORTING: bv8 := 0x12
  const COMMAND_REQUEST_STATUS: bv8 := 0x15
  const COMMAND_REGISTER: bv8 := 0x16
  const COMMAND_READ_REGISTER: bv8 := 0x17
  const INPUT_STATUS: bv8 := 0x20
  const INPUT_READ_DATA: bv8 := 0x21
  const EXTENSION_8BYTES: bv8 := 0x32
  const BUTTON_DOWN_MASK: bv8 := 0x08
  const LED1_MASK: bv8 := 0x10
  const BATTERY_MAX: real := 200.0
  const CALIBRATION_REQ_PAYLOAD: Bytes := [0x04, 0xA4, 0x00, 0x24, 0x00, 0x18]
  const MASS_REQ_PAYLOAD: Bytes := [0x04, 0xA4, 0x00, 0x40, 0x00]
  const BLUETOOTH_NAME: string := "Nintendo RVL-WBC-01"

  // Corner order of a mass report and of a calibration row.
  const TOP_RIGHT: nat := 0
  const BOTTOM_RIGHT: nat := 1
  const TOP_LEFT: nat := 2
  const BOTTOM_LEFT: nat := 3

  /** One outcome of `recv(25)` on the data socket. */
  datatype RecvOutcome = Data(bytes: Bytes) | Empty | WouldBlock | OtherError

  // ---------------------------------------------------------------- framing

  /** `b''.join(parts)` */
  function Concat(parts: seq<Bytes>): Bytes
  {
    if parts == [] then [] else parts[0] + Concat(parts[1..])
  }

  lemma ConcatCons(x: Bytes, xs: seq<Bytes>)
    ensures Concat([x] + xs) == x + Concat(xs)
  {
    assert ([x] + xs)[1..] == xs;
  }

  lemma ConcatSmall(a: Bytes, b: Bytes, c: Bytes)
    ensures Concat([a, b]) == a + b
    ensures Concat([a, b, c]) == a + b + c
  {
    ConcatCons(c, []);
    ConcatCons(b, []);
    assert [b, c] == [b] + [c];
    ConcatCons(b, [c]);
    assert [a, b] == [a] + [b];
    ConcatCons(a, [b]);
    assert [a, b, c] == [a] + [b, c];
    ConcatCons(a, [b, c]);
  }

  /** What `send(*parts)` writes to the control socket. */
  function Framed(parts: seq<Bytes>): (r: Bytes)
    ensures |r| == 1 + |Concat(parts)| && r[0] == SET_REPORT && r[1..] == Concat(parts)
  {
    [SET_REPORT] + Concat(parts)
  }

  /** `send(COMMAND_READ_REGISTER, CALIBRATION_REQ_PAYLOAD)` */
  function ReadRegisterCmd(): (r: Bytes)
    ensures r == [0x52, 0x17, 0x04, 0xA4, 0x00, 0x24, 0x00, 0x18]
  {
    ConcatSmall([COMMAND_READ_REGISTER], CALIBRATION_REQ_PAYLOAD, []);
    Framed([[COMMAND_READ_REGISTER], CALIBRATION_REQ_PAYLOAD])
  }

  /** `send(COMMAND_REGISTER, MASS_REQ_PAYLOAD)` */
  function RegisterCmd(): (r: Bytes)
    ensures r == [0x52, 0x16, 0x04, 0xA4, 0x00, 0x40, 0x00]
  {
    ConcatSmall([COMMAND_REGISTER], MASS_REQ_PAYLOAD, []);
    Framed([[COMMAND_REGISTER], MASS_REQ_PAYLOAD])
  }

  /** `status()` */
  function StatusCmd(): (r: Bytes)
    ensures r == [0x52, 0x15, 0x00]
  {
    ConcatSmall([COMMAND_REQUEST_STATUS], [0x00], []);
    Framed([[COMMAND_REQUEST_STATUS], [0x00]])
  }

  /** `light(on)`: any truthy argument turns the LED on. */
  function LightCmd(on: bool): (r: Bytes)
    ensures r == [0x52, 0x11, if on then 0x10 else 0x00]
  {
    ConcatSmall([COMMAND_LIGHT], [if on then 0x10 else 0x00], []);
    Framed([[COMMAND_LIGHT], [if on then 0x10 else 0x00]])
  }

  /** `reporting(mode, extension)`; the clients always use the defaults. */
  function ReportingCmd(mode: bv8, extension: bv8): (r: Bytes)
    ensures r == [0x52, 0x12, mode, extension]
  {
    ConcatSmall([COMMAND_REPORTING], [mode], [extension]);
    Framed([[COMMAND_REPORTING], [mode], [extension]])
  }

  /** The reply `on_status` sends: continuous 8-byte extension reports, then LED on. */
  function StatusReply(): seq<Bytes>
  {
    [ReportingCmd(CONTINUOUS_REPORTING, EXTENSION_8BYTES), LightCmd(true)]
  }

  /** The four writes of the calibration request, in order. */
  function CalibrationRequest(): seq<Bytes>
  {
    [ReadRegisterCmd(), RegisterCmd(), StatusCmd(), LightCmd(false)]
  }

  lemma CalibrationRequestBytes()
    ensures CalibrationRequest() == [
      [0x52, 0x17, 0x04, 0xA4, 0x00, 0x24, 0x00, 0x18],
      [0x52, 0x16, 0x04, 0xA4, 0x00, 0x40, 0x00],
      [0x52, 0x15, 0x00],
      [0x52, 0x11, 0x00]]
    ensures StatusReply() == [[0x52, 0x12, 0x04, 0x32], [0x52, 0x11, 0x10]]
  {
  }

  // -------------------------------------------------------------- discovery

  type Address = string

  /** One `(address, name)` pair of a Bluetooth scan. */
  datatype Device = Device(address: Address, name: string)

  /** `name.startswith(prefix)` */
  predicate HasPrefix(name: string, prefix: string)
  {
    prefix <= name
  }

  /** `[address for address, name in devices if name.startswith(prefix)]` */
  function Matches(devices: seq<Device>, prefix: string): (r: seq<Address>)
    ensures |r| <= |devices|
  {
    if devices == [] then []
    else (if HasPrefix(devices[0].name, prefix) then [devices[0].address] else []) + Matches(devices[1..], prefix)
  }

  /** An address is kept exactly when some scanned device with that address has the prefix. */
  lemma {:induction false} MatchesMembers(devices: seq<Device>, prefix: string, a: Address)
    ensures a in Matches(devices, prefix) <==>
      exists i :: 0 <= i < |devices| && devices[i].address == a && HasPrefix(devices[i].name, prefix)
  {
    if devices != [] {
      MatchesMembers(devices[1..], prefix, a);
      if a in Matches(devices[1..], prefix) {
        var i :| 0 <= i < |devices[1..]| && devices[1..][i].address == a && HasPrefix(devices[1..][i].name, prefix);
        assert devices[i + 1] == devices[1..][i];
      }
      if exists i :: 0 <= i < |devices| && devices[i].address == a && HasPrefix(devices[i].name, prefix) {
        var i :| 0 <= i < |devices| && devices[i].address == a && HasPrefix(devices[i].name, prefix);
        if i > 0 { assert devices[1..][i - 1] == devices[i]; }
      }
    }
  }

  /** The filter keeps scan order: it distributes over concatenation. */
  lemma {:induction false} MatchesAppend(d1: seq<Device>, d2: seq<Device>, prefix: string)
    ensures Matches(d1 + d2, prefix) == Matches(d1, prefix) + Matches(d2, prefix)
  {
    if d1 == [] {
      assert d1 + d2 == d2;
    } else {
      var head := if HasPrefix(d1[0].name, prefix) then [d1[0].address] else [];
      assert (d1 + d2)[1..] == d1[1..] + d2;
      assert (d1 + d2)[0] == d1[0];
      MatchesAppend(d1[1..], d2, prefix);
      assert Matches(d1 + d2, prefix) == head + Matches(d1[1..] + d2, prefix);
    }
  }

  /** The head of the filtered list is the address of the first matching device. */
  lemma {:induction false} MatchesHead(devices: seq<Device>, prefix: string)
    ensures Matches(devices, prefix) != [] ==>
      exists i :: 0 <= i < |devices| && HasPrefix(devices[i].name, prefix)
        && devices[i].address == Matches(devices, prefix)[0]
        && forall j :: 0 <= j < i ==> !HasPrefix(devices[j].name, prefix)
    ensures Matches(devices, prefix) == [] <==>
      forall i :: 0 <= i < |devices| ==> !HasPrefix(devices[i].name, prefix)
  {
    if devices != [] && !HasPrefix(devices[0].name, prefix) {
      MatchesHead(devices[1..], prefix);
      if Matches(devices, prefix) != [] {
        var i :| 0 <= i < |devices[1..]| && HasPrefix(devices[1..][i].name, prefix)
          && devices[1..][i].address == Matches(devices[1..], prefix)[0]
          && forall j :: 0 <= j < i ==> !HasPrefix(devices[1..][j].name, prefix);
        assert devices[i + 1] == devices[1..][i];
        forall j | 0 <= j < i + 1
          ensures !HasPrefix(devices[j].name, prefix)
        {
          if j > 0 { assert devices[j] == devices[1..][j - 1]; }
        }
      }
    }
  }

  // ------------------------------------------------------ slices and words

  function Min(a: int, b: int): int
  {
    if a <= b then a else b
  }

  /** Python's `s[i:j]` for non-negative bounds: both ends are clamped to `len(s)`. */
  function PySlice(s: Bytes, i: nat, j: nat): (r: Bytes)
    requires i <= j
    ensures |r| == Min(j, |s|) - Min(i, |s|)
  {
    s[Min(i, |s|)..Min(j, |s|)]
  }

  /** A slice of a slice, in Dafny's own slicing. */
  lemma SliceOfSlice(s: Bytes, x: nat, y: nat, p: nat, q: nat)
    requires x <= y <= |s| && p <= q <= y - x
    ensures s[x..y][p..q] == s[x + p..x + q]
  {
    var lhs, rhs := s[x..y][p..q], s[x + p..x + q];
    assert |lhs| == |rhs|;
    forall k | 0 <= k < |lhs| ensures lhs[k] == rhs[k] {
      assert lhs[k] == s[x..y][p + k] == s[x + p + k];
    }
  }

  /** Slicing a slice is one slice of the original, clamped to the inner bounds. */
  lemma PySliceOfSlice(s: Bytes, a: nat, l: nat, i: nat, j: nat)
    requires i <= j
    ensures PySlice(PySlice(s, a, a + l), i, j) == PySlice(s, a + Min(i, l), a + Min(j, l))
  {
    if a >= |s| {
      assert |PySlice(s, a, a + l)| == 0 && |PySlice(s, a + Min(i, l), a + Min(j, l))| == 0;
    } else {
      var hi := Min(a + l, |s|);
      var inner := s[a..hi];
      assert PySlice(s, a, a + l) == inner;
      var p, q := Min(i, |inner|), Min(j, |inner|);
      assert PySlice(inner, i, j) == inner[p..q];
      assert a + p == Min(a + Min(i, l), |s|) && a + q == Min(a + Min(j, l), |s|);
      SliceOfSlice(s, a, hi, p, q);
    }
  }

  function Pow256(n: nat): (p: nat)
    ensures p >= 1
  {
    if n == 0 then 1 else 256 * Pow256(n - 1)
  }

  /** `int.from_bytes(b, byteorder='big')`; the empty slice reads as 0. */
  function BigEndian(b: Bytes): (v: nat)
    ensures v < Pow256(|b|)
  {
    if b == [] then 0 else BigEndian(b[..|b| - 1]) * 256 + b[|b| - 1] as int
  }

  /** The cases that occur: a calibration cell or a raw reading has at most two bytes. */
  lemma BigEndianShort(b: Bytes)
    requires |b| <= 2
    ensures BigEndian(b) < 65536
    ensures |b| == 0 ==> BigEndian(b) == 0
    ensures |b| == 1 ==> BigEndian(b) == b[0] as int
    ensures |b| == 2 ==> BigEndian(b) == b[0] as int * 256 + b[1] as int
  {
    if |b| == 2 {
      assert b[..1][..0] == [];
    }
  }

  /** `[d[j:j+2] for j in [0, 2, 4, 6]]` (the `cal` lambda, `join_packet_bytes`). */
  function Pairs(d: Bytes): (r: seq<Bytes>)
    ensures |r| == 4
    ensures forall k :: 0 <= k < 4 ==> r[k] == PySlice(d, 2 * k, 2 * k + 2)
  {
    [PySlice(d, 0, 2), PySlice(d, 2, 4), PySlice(d, 4, 6), PySlice(d, 6, 8)]
  }

  /** The pairs put back together are the first eight bytes, however short `d` is. */
  lemma PairsRoundTrip(d: Bytes)
    ensures Concat(Pairs(d)) == PySlice(d, 0, 8)
    ensures forall k :: 0 <= k < 4 ==> |Pairs(d)[k]| == Min(2, if |d| <= 2 * k then 0 else |d| - 2 * k)
  {
    var p := Pairs(d);
    ConcatCons(p[3], []);
    assert p[2..] == [p[2]] + [p[3]];
    ConcatCons(p[2], [p[3]]);
    assert p[1..] == [p[1]] + p[2..];
    ConcatCons(p[1], p[2..]);
    assert p == [p[0]] + p[1..];
    ConcatCons(p[0], p[1..]);
    assert Concat(p) == p[0] + p[1] + p[2] + p[3];
    AdjacentSlices(d, 0, 2, 4);
    AdjacentSlices(d, 0, 4, 6);
    AdjacentSlices(d, 0, 6, 8);
  }

  /** Two adjacent Python slices make up the slice across both. */
  lemma AdjacentSlices(d: Bytes, i: nat, j: nat, k: nat)
    requires i <= j <= k
    ensures PySlice(d, i, j) + PySlice(d, j, k) == PySlice(d, i, k)
  {
    assert d[Min(i, |d|)..Min(j, |d|)] + d[Min(j, |d|)..Min(k, |d|)] == d[Min(i, |d|)..Min(k, |d|)];
  }

  // ------------------------------------------------------ calibration data

  /** A calibration cell: the 1e4 float placeholder, or a slice of 0..2 raw bytes. */
  datatype CalCell = Placeholder | Cell(raw: Bytes)

  type Row = seq<CalCell>
  type Matrix = seq<Row>

  const PLACEHOLDER_ROW: Row := [Placeholder, Placeholder, Placeholder, Placeholder]
  const PLACEHOLDER_MATRIX: Matrix := [PLACEHOLDER_ROW, PLACEHOLDER_ROW, PLACEHOLDER_ROW]

  /** Three bands (0, 17, 34 kg) of four corners each. */
  predicate IsMatrix(m: Matrix)
  {
    |m| == 3 && forall i :: 0 <= i < 3 ==> |m[i]| == 4
  }

  /** `cal(d)`: one matrix row built from the pairs of `d`. */
  function RowOf(d: Bytes): (r: Row)
    ensures |r| == 4
    ensures forall k :: 0 <= k < 4 ==> r[k] == Cell(Pairs(d)[k])
  {
    [Cell(PySlice(d, 0, 2)), Cell(PySlice(d, 2, 4)), Cell(PySlice(d, 4, 6)), Cell(PySlice(d, 6, 8))]
  }

  /** `int(data[4] / 16 + 1)`: the block length announced by a read-data report. */
  function BlockLength(d: Bytes): (n: nat)
    requires |d| >= 5
    ensures 1 <= n <= 16
    ensures n == 16 <==> d[4] >= 0xF0
  {
    (d[4] as int) / 16 + 1
  }

  /** The calibration matrix after one read-data block, and whether it was the last. */
  datatype Block = Block(matrix: Matrix, complete: bool)

  /**
   * The body of the `INPUT_READ_DATA` branch while calibration is requested:
   * a 16-byte block fills rows 0 and 1 and resets row 2; a shorter one
   * replaces row 2 only and completes the handshake.
   */
  function ReadBlock(m: Matrix, d: Bytes): (r: Block)
    requires IsMatrix(m) && |d| >= 5
    ensures IsMatrix(r.matrix)
    ensures r.complete <==> BlockLength(d) < 16
    ensures !r.complete ==> r.matrix[2] == PLACEHOLDER_ROW
    ensures r.complete ==> r.matrix[0] == m[0] && r.matrix[1] == m[1]
  {
    var n := BlockLength(d);
    var payload := PySlice(d, 7, 7 + n);
    if n == 16 then
      Block([RowOf(PySlice(payload, 0, 8)), RowOf(PySlice(payload, 8, 16)), PLACEHOLDER_ROW], false)
    else
      Block(m[2 := RowOf(PySlice(payload, 0, 8))], true)
  }

  /** Cell `k` of a row cut from `d[a:a+l]`. */
  lemma RowOfSliceCell(d: Bytes, a: nat, l: nat, k: nat)
    requires k < 4
    ensures RowOf(PySlice(d, a, a + l))[k] == Cell(PySlice(d, a + Min(2 * k, l), a + Min(2 * k + 2, l)))
  {
    var inner := PySlice(d, a, a + l);
    var c := PySlice(inner, 2 * k, 2 * k + 2);
    assert Pairs(inner)[k] == c;
    PySliceOfSlice(d, a, l, 2 * k, 2 * k + 2);
    assert c == PySlice(d, a + Min(2 * k, l), a + Min(2 * k + 2, l));
  }

  /**
   * Where the rows of a 16-byte block come from in the report frame
   * (cell by cell: `RowOfSliceCell`).
   */
  lemma FirstBlockRows(m: Matrix, d: Bytes)
    requires IsMatrix(m) && |d| >= 5 && BlockLength(d) == 16
    ensures ReadBlock(m, d).matrix[0] == RowOf(PySlice(d, 7, 15))
    ensures ReadBlock(m, d).matrix[1] == RowOf(PySlice(d, 15, 23))
  {
    PySliceOfSlice(d, 7, 16, 0, 8);
    PySliceOfSlice(d, 7, 16, 8, 16);
  }

  /** Where row 2 of a shorter block comes from: the payload is cut at its length. */
  lemma LastBlockRow(m: Matrix, d: Bytes)
    requires IsMatrix(m) && |d| >= 5 && BlockLength(d) < 16
    ensures ReadBlock(m, d).matrix[2] == RowOf(PySlice(d, 7, 7 + Min(8, BlockLength(d))))
  {
    var n := BlockLength(d);
    var payload := PySlice(d, 7, 7 + n);
    assert ReadBlock(m, d).matrix[2] == RowOf(PySlice(payload, 0, 8));
    PySliceOfSlice(d, 7, n, 0, 8);
    assert PySlice(payload, 0, 8) == PySlice(d, 7, 7 + Min(8, n));
  }

  /** Evaluating a cell as an integer: the float placeholder has no `len()`. */
  function CellValue(c: CalCell): (r: Result<nat>)
    ensures r.Err? <==> c == Placeholder
    ensures r.Err? ==> r.error == TypeError
  {
    match c
    case Placeholder => Err(TypeError)
    case Cell(b) => Ok(BigEndian(b))
  }

  // ----------------------------------------------------------- weight curve

  /**
   * `calc_mass` once the raw reading and the corner's three reference
   * readings are integers: 0 below the 0 kg point, then two linear bands
   * through 17 kg and 34 kg. Only the upper band can divide by zero.
   */
  function CalcMass(r: int, c0: int, c1: int, c2: int): (m: Result<real>)
    ensures m.Err? <==> (c0 <= r && c1 <= r && c2 == c1)
    ensures m.Err? ==> m.error == ZeroDivision
    ensures r < c0 ==> m == Ok(0.0)
  {
    if r < c0 then Ok(0.0)
    else if r < c1 then Ok(17.0 * ((r - c0) as real / (c1 - c0) as real))
    else if c2 == c1 then Err(ZeroDivision)
    else Ok(17.0 + 17.0 * ((r - c1) as real / (c2 - c1) as real))
  }

  /** The curve meets the reference points: 0 kg at c0, 17 kg at c1, 34 kg at c2. */
  lemma CalcMassReferencePoints(c0: int, c1: int, c2: int)
    requires c0 < c1 < c2
    ensures CalcMass(c0, c0, c1, c2) == Ok(0.0)
    ensures CalcMass(c1, c0, c1, c2) == Ok(17.0)
    ensures CalcMass(c2, c0, c1, c2) == Ok(34.0)
  {
    var k := (c2 - c1) as real;
    assert (c2 - c1) as real / k == 1.0;
  }

  lemma LowerBandMonotone(c0: int, c1: int, a: int, b: int)
    requires c0 <= a <= b && c0 < c1
    ensures (a - c0) as real / (c1 - c0) as real <= (b - c0) as real / (c1 - c0) as real
  {
    var k := (c1 - c0) as real;
    assert (a - c0) as real / k * k == (a - c0) as real;
    assert (b - c0) as real / k * k == (b - c0) as real;
  }

  lemma LowerBandBelow1(c0: int, c1: int, a: int)
    requires c0 <= a < c1
    ensures 0.0 <= (a - c0) as real / (c1 - c0) as real < 1.0
  {
    var k := (c1 - c0) as real;
    assert (a - c0) as real / k * k == (a - c0) as real;
  }

  /** With increasing reference readings the curve never decreases and never fails. */
  lemma CalcMassMonotone(c0: int, c1: int, c2: int, a: int, b: int)
    requires c0 < c1 < c2 && a <= b
    ensures CalcMass(a, c0, c1, c2).Ok? && CalcMass(b, c0, c1, c2).Ok?
    ensures CalcMass(a, c0, c1, c2).value <= CalcMass(b, c0, c1, c2).value
  {
    if a >= c0 && a < c1 {
      LowerBandBelow1(c0, c1, a);
      if b < c1 {
        LowerBandMonotone(c0, c1, a, b);
      } else {
        LowerBandMonotone(c1, c2, c1, b);
      }
    } else if a >= c1 {
      LowerBandMonotone(c1, c2, a, b);
      LowerBandMonotone(c1, c2, c1, a);
    } else if b >= c0 {
      if b < c1 { LowerBandMonotone(c0, c1, c0, b); } else { LowerBandMonotone(c1, c2, c1, b); }
    }
  }

  /** The sample curve 100 / 1000 / 1900 at the midpoints of its bands. */
  lemma CalcMassSamples()
    ensures CalcMass(100, 100, 1000, 1900) == Ok(0.0)
    ensures CalcMass(550, 100, 1000, 1900) == Ok(8.5)
    ensures CalcMass(1000, 100, 1000, 1900) == Ok(17.0)
    ensures CalcMass(1450, 100, 1000, 1900) == Ok(25.5)
    ensures CalcMass(1900, 100, 1000, 1900) == Ok(34.0)
  {
  }

  /** The four corner masses of a report, keyed as the Python dict is. */
  datatype Masses = Masses(topRight: real, bottomRight: real, topLeft: real, bottomLeft: real)

  function Corner(m: Masses, pos: nat): real
    requires pos < 4
  {
    if pos == TOP_RIGHT then m.topRight
    else if pos == BOTTOM_RIGHT then m.bottomRight
    else if pos == TOP_LEFT then m.topLeft
    else m.bottomLeft
  }

  /**
   * `calc_mass(raw, pos)`: the first two bytes of `raw`, big-endian, against
   * column `pos` of the matrix; every band of the column is evaluated first.
   */
  function CalcMassAt(m: Matrix, raw: Bytes, pos: nat): (r: Result<real>)
    requires IsMatrix(m) && pos < 4
    ensures r == Err(TypeError) <==> exists i :: 0 <= i < 3 && m[i][pos] == Placeholder
    ensures r.Ok? ==> forall i :: 0 <= i < 3 ==> m[i][pos].Cell?
  {
    var v := BigEndian(PySlice(raw, 0, 2));
    match (CellValue(m[0][pos]), CellValue(m[1][pos]), CellValue(m[2][pos]))
    case (Ok(c0), Ok(c1), Ok(c2)) => CalcMass(v, c0, c1, c2)
    case _ => Err(TypeError)
  }

  /** Corner `c` of a mass report: bytes `2c..2c+2` against calibration column `c`. */
  function CornerResult(m: Matrix, data: Bytes, c: nat): Result<real>
    requires IsMatrix(m) && c < 4
  {
    CalcMassAt(m, PySlice(data, 2 * c, 2 * c + 2), c)
  }

  /** The body of `get_mass` without its length guard: corners in dict order, first failure wins. */
  function CornerMasses(m: Matrix, data: Bytes): (r: Result<Masses>)
    requires IsMatrix(m)
    ensures r.Ok? <==> forall c :: 0 <= c < 4 ==> CornerResult(m, data, c).Ok?
    ensures r.Ok? ==> forall c :: 0 <= c < 4 ==> Corner(r.value, c) == CornerResult(m, data, c).value
    ensures r.Err? ==> exists c :: 0 <= c < 4 && CornerResult(m, data, c) == Err(r.error)
  {
    var tr := CornerResult(m, data, TOP_RIGHT);
    var br := CornerResult(m, data, BOTTOM_RIGHT);
    var tl := CornerResult(m, data, TOP_LEFT);
    var bl := CornerResult(m, data, BOTTOM_LEFT);
    if tr.Err? then Err(tr.error)
    else if br.Err? then Err(br.error)
    else if tl.Err? then Err(tl.error)
    else if bl.Err? then Err(bl.error)
    else Ok(Masses(tr.value, br.value, tl.value, bl.value))
  }

  /** `get_mass(data)`: None for fewer than eight bytes. */
  function GetMass(m: Matrix, data: Bytes): (r: Result<Option<Masses>>)
    requires IsMatrix(m)
    ensures |data| < 8 <==> r == Ok(None)
    ensures |data| >= 8 ==> (r.Ok? <==> CornerMasses(m, data).Ok?)
    ensures r.Ok? && r.value.Some? ==> r.value.value == CornerMasses(m, data).value
  {
    if |data| < 8 then Ok(None)
    else match CornerMasses(m, data)
      case Err(e) => Err(e)
      case Ok(v) => Ok(Some(v))
  }

  // ---------------------------------------------------------------- button

  /** `button_down` after one button pair, and the edge reported if any. */
  datatype Edge = Edge(down: bool, event: Option<bool>)

  /**
   * `check_button(state)`: with two or more bytes, the second one equal to
   * 0x08 is a press; a press is reported when the button was up and a
   * release when it was down. Otherwise nothing changes.
   */
  function ButtonEdge(down: bool, state: Bytes): (r: Edge)
    ensures r.event == Some(true) <==> |state| >= 2 && state[1] == BUTTON_DOWN_MASK && !down
    ensures r.event == Some(false) <==> |state| >= 2 && state[1] != BUTTON_DOWN_MASK && down
    ensures r.down == (if r.event.Some? then r.event.value else down)
  {
    if |state| < 2 then Edge(down, None)
    else if state[1] == BUTTON_DOWN_MASK then
      if !down then Edge(true, Some(true)) else Edge(down, None)
    else if down then Edge(false, Some(false))
    else Edge(down, None)
  }

  /** The events of a run of button pairs fed one after another. */
  function ButtonEvents(down: bool, states: seq<Bytes>): seq<bool>
    decreases |states|
  {
    if states == [] then []
    else
      var e := ButtonEdge(down, states[0]);
      Emitted(e) + ButtonEvents(e.down, states[1..])
  }

  /** The event an edge reports, as a list of zero or one events. */
  function Emitted(e: Edge): seq<bool>
  {
    if e.event.Some? then [e.event.value] else []
  }

  /** The level a button pair signals when it is decoded at all. */
  predicate Pressed(state: Bytes)
    requires |state| >= 2
  {
    state[1] == BUTTON_DOWN_MASK
  }

  /** Events alternate and the first one differs from the starting level. */
  lemma {:induction false} ButtonEventsAlternate(down: bool, states: seq<Bytes>)
    decreases |states|
    ensures var ev := ButtonEvents(down, states);
      (ev != [] ==> ev[0] != down)
      && forall k :: 0 <= k < |ev| - 1 ==> ev[k] != ev[k + 1]
  {
    if states != [] {
      var e := ButtonEdge(down, states[0]);
      ButtonEventsAlternate(e.down, states[1..]);
      var rest := ButtonEvents(e.down, states[1..]);
      assert ButtonEvents(down, states) == Emitted(e) + rest;
      if e.event.Some? {
        assert Emitted(e) == [e.event.value];
      }
    }
  }

  /** One event per level change, none while the level holds. */
  lemma {:induction false} ButtonEventsHeld(down: bool, state: Bytes, n: nat)
    requires |state| >= 2
    ensures ButtonEvents(down, seq(n, _ => state)) ==
      if n > 0 && Pressed(state) != down then [Pressed(state)] else []
    decreases n
  {
    if n > 0 {
      var s := seq(n, _ => state);
      assert s[1..] == seq(n - 1, _ => state);
      var e := ButtonEdge(down, state);
      assert e.down == Pressed(state);
      ButtonEventsHeld(e.down, state, n - 1);
    }
  }

  lemma {:induction false} ButtonEventsAppend(down: bool, s1: seq<Bytes>, s2: seq<Bytes>)
    ensures ButtonEvents(down, s1 + s2) ==
      ButtonEvents(down, s1) + ButtonEvents(FinalDown(down, s1), s2)
    decreases |s1|
  {
    if s1 == [] {
      assert s1 + s2 == s2;
    } else {
      var e := ButtonEdge(down, s1[0]);
      var s := s1 + s2;
      assert s[0] == s1[0] && s[1..] == s1[1..] + s2;
      ButtonEventsAppend(e.down, s1[1..], s2);
      var x, y := ButtonEvents(e.down, s1[1..]), ButtonEvents(FinalDown(e.down, s1[1..]), s2);
      assert ButtonEvents(down, s) == Emitted(e) + (x + y);
      assert ButtonEvents(down, s1) == Emitted(e) + x;
      assert FinalDown(down, s1) == FinalDown(e.down, s1[1..]);
      assert Emitted(e) + (x + y) == (Emitted(e) + x) + y;
    }
  }

  /** `button_down` after a run of button pairs. */
  function FinalDown(down: bool, states: seq<Bytes>): bool
    decreases |states|
  {
    if states == [] then down else FinalDown(ButtonEdge(down, states[0]).down, states[1..])
  }

  lemma {:induction false} FinalDownHeld(down: bool, state: Bytes, n: nat)
    requires |state| >= 2
    ensures FinalDown(down, seq(n, _ => state)) == if n > 0 then Pressed(state) else down
    decreases n
  {
    if n > 0 {
      var s := seq(n, _ => state);
      assert s[1..] == seq(n - 1, _ => state);
      FinalDownHeld(ButtonEdge(down, state).down, state, n - 1);
    }
  }

  /** Held down for `k` reports, then up for `j`: exactly one press and one release. */
  lemma PressThenRelease(pressed: Bytes, released: Bytes, k: nat, j: nat)
    requires |pressed| >= 2 && Pressed(pressed)
    requires |released| >= 2 && !Pressed(released)
    requires k > 0 && j > 0
    ensures ButtonEvents(false, seq(k, _ => pressed) + seq(j, _ => released)) == [true, false]
  {
    ButtonEventsAppend(false, seq(k, _ => pressed), seq(j, _ => released));
    ButtonEventsHeld(false, pressed, k);
    FinalDownHeld(false, pressed, k);
    ButtonEventsHeld(true, released, j);
  }

  // -------------------------------------------------------------- responses

  /** The `{'type': ..., 'data': ...}` dicts built by `build_response`. */
  datatype Response =
    | Status(battery: real, light: bool)
    | Calibration(matrix: Matrix)
    | Mass(masses: Masses)
    | Button(pressed: bool)

  /**
   * How a reading call ends: it returns (a response or None), raises, or is
   * still blocked in `recv` when the scripted input runs out.
   */
  datatype Outcome = Returned(response: Option<Response>) | Raised(error: PyError) | Blocked

  /** `batteryLevel / BATTERY_MAX`: the fraction of full charge. */
  function BatteryFraction(level: bv8): (b: real)
    ensures 0.0 <= b <= 1.275
    ensures level == 200 ==> b == 1.0
  {
    (level as int) as real / BATTERY_MAX
  }

  /** `data[4] & LED1_MASK == LED1_MASK` */
  predicate LedOn(flags: bv8)
  {
    flags & LED1_MASK == LED1_MASK
  }
}
