/**
 * The motion logic of `src/alphabot/Alphabot.py`: four corner masses from
 * the balance board choose one active axis, a direction and a discrete
 * power level, and `drive` turns that choice into exactly one of five
 * motor actions. The GPIO pins and PWM channels are an abstract output
 * record: the two duty cycles and the four direction pins.
 */
module AlphabotMotion {
  import opened WiiProtocol

  datatype MovDirection = POSITIVE | NEGATIVE | IDLE

  /** `weightThreshold`: the upper bounds of the NONE, LOW, MEDIUM and HIGH bands. */
  const THRESHOLD_NONE: real := 10.0
  const THRESHOLD_LOW: real := 20.0
  const THRESHOLD_MEDIUM: real := 30.0
  const THRESHOLD_HIGH: real := 40.0

  /** `powerMap`: the duty cycle of each band, in percent. */
  const POWER_NONE: int := 0
  const POWER_LOW: int := 25
  const POWER_MEDIUM: int := 50
  const POWER_HIGH: int := 75

  /** The fields `mass_to_velocity` writes and `drive` reads. */
  datatype Motion = Motion(drivingPower: int, turningPower: int, vertDirection: MovDirection, horizDirection: MovDirection)

  /** What the motors were last told: duty cycles of PWM A and B, and the pins `ain1`, `ain2`, `bin1`, `bin2`. */
  datatype Motors = Motors(dutyA: int, dutyB: int, ain1: bool, ain2: bool, bin1: bool, bin2: bool)

  /** The five motor actions. */
  datatype Action = Forward | Backwards | TurnLeft | TurnRight | Halt

  /** The output each action writes, with the current driving and turning powers. */
  function Output(a: Action, drivingPower: int, turningPower: int): (r: Motors)
    ensures r.dutyA == r.dutyB
    ensures a != Halt <==> r.ain1 != r.ain2 && r.bin1 != r.bin2
  {
    match a
    case Forward => Motors(drivingPower, drivingPower, false, true, false, true)
    case Backwards => Motors(drivingPower, drivingPower, true, false, true, false)
    case TurnLeft => Motors(turningPower, turningPower, true, false, false, true)
    case TurnRight => Motors(turningPower, turningPower, false, true, true, false)
    case Halt => Motors(0, 0, false, false, false, false)
  }

  /** The two wheels turn the same way for driving and opposite ways for turning; stop drives no pin. */
  lemma OutputShapes(a: Action, dp: int, tp: int)
    ensures var o := Output(a, dp, tp);
      (a == Halt <==> !(o.ain1 || o.ain2 || o.bin1 || o.bin2))
      && (a != Halt ==> o.ain1 != o.ain2 && o.bin1 != o.bin2)
      && ((a == Forward || a == Backwards) <==> a != Halt && o.ain1 == o.bin1)
      && (a == Forward || a == Backwards ==> o.dutyA == o.dutyB == dp)
      && (a == TurnLeft || a == TurnRight ==> o.dutyA == o.dutyB == tp)
      && (a == Halt ==> o.dutyA == o.dutyB == 0)
  {
  }

  function Abs(x: real): real
  {
    if x < 0.0 then -x else x
  }

  /** `POSITIVE if a >= b else NEGATIVE if b > a else IDLE`. */
  function Candidate(a: real, b: real): (d: MovDirection)
    ensures d != IDLE
    ensures d == POSITIVE <==> a >= b
  {
    if a >= b then POSITIVE else if b > a then NEGATIVE else IDLE
  }

  function Up(m: Masses): real { (m.topRight + m.topLeft) / 2.0 }
  function Down(m: Masses): real { (m.bottomRight + m.bottomLeft) / 2.0 }
  function Left(m: Masses): real { (m.topLeft + m.bottomLeft) / 2.0 }
  function Right(m: Masses): real { (m.topRight + m.bottomRight) / 2.0 }

  /**
   * One axis of `mass_to_velocity`: the band of `diff` gives the direction
   * and power; above the HIGH bound there is no branch, so the old ones stay.
   */
  function Banded(diff: real, dir: MovDirection, oldDir: MovDirection, oldPower: int): (r: (MovDirection, int))
    ensures diff > THRESHOLD_HIGH ==> r == (oldDir, oldPower)
    ensures diff <= THRESHOLD_HIGH ==> r.1 in {POWER_NONE, POWER_LOW, POWER_MEDIUM, POWER_HIGH}
    ensures diff <= THRESHOLD_HIGH ==> (r.1 == POWER_NONE <==> diff <= THRESHOLD_NONE)
    ensures THRESHOLD_NONE < diff ==> r.0 == dir || diff > THRESHOLD_HIGH
  {
    if diff <= THRESHOLD_NONE then (IDLE, POWER_NONE)
    else if diff <= THRESHOLD_LOW then (dir, POWER_LOW)
    else if diff <= THRESHOLD_MEDIUM then (dir, POWER_MEDIUM)
    else if diff <= THRESHOLD_HIGH then (dir, POWER_HIGH)
    else (oldDir, oldPower)
  }

  /** `mass_to_velocity` on the motion fields. */
  function Velocity(s: Motion, mass: Masses): (r: Motion)
    ensures r.vertDirection == IDLE || r.horizDirection == IDLE
    ensures r.drivingPower == 0 || r.turningPower == 0
  {
    var vertDiff := Abs(Up(mass) - Down(mass));
    var horizDiff := Abs(Left(mass) - Right(mass));
    if vertDiff >= horizDiff then
      var (d, p) := Banded(vertDiff, Candidate(Up(mass), Down(mass)), s.vertDirection, s.drivingPower);
      Motion(p, 0, d, IDLE)
    else
      var (d, p) := Banded(horizDiff, Candidate(Left(mass), Right(mass)), s.horizDirection, s.turningPower);
      Motion(0, p, IDLE, d)
  }

  /**
   * The axis with the larger difference wins (vertical on a tie); the other
   * axis is reset to IDLE with power 0, so at least one axis is always IDLE.
   */
  lemma OneAxisWins(s: Motion, mass: Masses)
    ensures var vertDiff := Abs(Up(mass) - Down(mass));
      var horizDiff := Abs(Left(mass) - Right(mass));
      var r := Velocity(s, mass);
      (r.vertDirection == IDLE || r.horizDirection == IDLE)
      && (vertDiff >= horizDiff ==> r.horizDirection == IDLE && r.turningPower == 0)
      && (vertDiff < horizDiff ==> r.vertDirection == IDLE && r.drivingPower == 0)
  {
  }

  /** The band rule on the winning axis: its direction and power as a function of the difference. */
  lemma BandLevels(diff: real, dir: MovDirection, oldDir: MovDirection, oldPower: int)
    ensures var (d, p) := Banded(diff, dir, oldDir, oldPower);
      (diff <= 10.0 ==> d == IDLE && p == 0)
      && (10.0 < diff <= 20.0 ==> d == dir && p == 25)
      && (20.0 < diff <= 30.0 ==> d == dir && p == 50)
      && (30.0 < diff <= 40.0 ==> d == dir && p == 75)
      && (40.0 < diff ==> d == oldDir && p == oldPower)
  {
  }

  /** The choice `drive` makes: stop, then vertical, then horizontal. */
  function Chosen(s: Motion): (a: Action)
    ensures a == Halt <==> s.vertDirection == IDLE && s.horizDirection == IDLE
    ensures a == Forward <==> s.vertDirection == POSITIVE
    ensures a == Backwards <==> s.vertDirection == NEGATIVE
    ensures a == TurnRight <==> s.vertDirection == IDLE && s.horizDirection == POSITIVE
    ensures a == TurnLeft <==> s.vertDirection == IDLE && s.horizDirection == NEGATIVE
  {
    match (s.vertDirection, s.horizDirection)
    case (IDLE, IDLE) => Halt
    case (POSITIVE, _) => Forward
    case (NEGATIVE, _) => Backwards
    case (IDLE, POSITIVE) => TurnRight
    case (IDLE, NEGATIVE) => TurnLeft
  }

  /**
   * End to end: a lean toward the top of the board by more than 10 and at
   * most 40, that beats the sideways lean, drives forward at that band's power.
   */
  lemma LeanForward(s: Motion, mass: Masses)
    requires Abs(Up(mass) - Down(mass)) >= Abs(Left(mass) - Right(mass))
    requires Up(mass) >= Down(mass) && 10.0 < Up(mass) - Down(mass) <= 40.0
    ensures var r := Velocity(s, mass);
      Chosen(r) == Forward && r.drivingPower in {POWER_LOW, POWER_MEDIUM, POWER_HIGH}
      && Output(Chosen(r), r.drivingPower, r.turningPower).dutyA == r.drivingPower
  {
  }

  /** A nearly level board (both differences at most 10) stops the robot. */
  lemma LevelStops(s: Motion, mass: Masses)
    requires Abs(Up(mass) - Down(mass)) <= 10.0 && Abs(Left(mass) - Right(mass)) <= 10.0
    ensures Chosen(Velocity(s, mass)) == Halt
  {
  }

  /** The robot: its motion fields and the last output sent to the motors. */
  class Alphabot {
    var drivingPower: int
    var turningPower: int
    var vertDirection: MovDirection
    var horizDirection: MovDirection
    var motors: Motors

    function State(): Motion
      reads this
    {
      Motion(drivingPower, turningPower, vertDirection, horizDirection)
    }

    /** `__init__`: both axes IDLE, the PWM channels started, then `stop()`. */
    constructor(drivingPower: int, turningPower: int)
      ensures State() == Motion(drivingPower, turningPower, IDLE, IDLE)
      ensures motors == Output(Halt, drivingPower, turningPower)
    {
      this.drivingPower := drivingPower;
      this.turningPower := turningPower;
      vertDirection := IDLE;
      horizDirection := IDLE;
      motors := Motors(drivingPower, drivingPower, false, false, false, false);
      new;
      Stop();
    }

    method DriveForward()
      modifies this
      ensures State() == old(State()) && motors == Output(Forward, drivingPower, turningPower)
    {
      motors := Motors(drivingPower, drivingPower, false, true, false, true);
    }

    method DriveBackwards()
      modifies this
      ensures State() == old(State()) && motors == Output(Backwards, drivingPower, turningPower)
    {
      motors := Motors(drivingPower, drivingPower, true, false, true, false);
    }

    method DriveLeft()
      modifies this
      ensures State() == old(State()) && motors == Output(TurnLeft, drivingPower, turningPower)
    {
      motors := Motors(turningPower, turningPower, true, false, false, true);
    }

    method DriveRight()
      modifies this
      ensures State() == old(State()) && motors == Output(TurnRight, drivingPower, turningPower)
    {
      motors := Motors(turningPower, turningPower, false, true, true, false);
    }

    method Stop()
      modifies this
      ensures State() == old(State()) && motors == Output(Halt, drivingPower, turningPower)
    {
      motors := Motors(0, 0, false, false, false, false);
    }

    /** `mass_to_velocity(mass)`. */
    method MassToVelocity(mass: Masses)
      modifies this
      ensures State() == Velocity(old(State()), mass) && motors == old(motors)
    {
      var up := (mass.topRight + mass.topLeft) / 2.0;
      var down := (mass.bottomRight + mass.bottomLeft) / 2.0;
      var left := (mass.topLeft + mass.bottomLeft) / 2.0;
      var right := (mass.topRight + mass.bottomRight) / 2.0;

      var vertDiff := Abs(up - down);
      var vertDir := if up >= down then POSITIVE else if down > up then NEGATIVE else IDLE;
      var horizDiff := Abs(left - right);
      var horizDir := if left >= right then POSITIVE else if right > left then NEGATIVE else IDLE;

      if vertDiff >= horizDiff {
        horizDirection := IDLE;
        turningPower := 0;
        if vertDiff <= THRESHOLD_NONE {
          vertDirection := IDLE;
          drivingPower := POWER_NONE;
        } else if vertDiff <= THRESHOLD_LOW {
          vertDirection := vertDir;
          drivingPower := POWER_LOW;
        } else if vertDiff <= THRESHOLD_MEDIUM {
          vertDirection := vertDir;
          drivingPower := POWER_MEDIUM;
        } else if vertDiff <= THRESHOLD_HIGH {
          vertDirection := vertDir;
          drivingPower := POWER_HIGH;
        }
      } else {
        vertDirection := IDLE;
        drivingPower := 0;
        if horizDiff <= THRESHOLD_NONE {
          horizDirection := IDLE;
          turningPower := POWER_NONE;
        } else if horizDiff <= THRESHOLD_LOW {
          horizDirection := horizDir;
          turningPower := POWER_LOW;
        } else if horizDiff <= THRESHOLD_MEDIUM {
          horizDirection := horizDir;
          turningPower := POWER_MEDIUM;
        } else if horizDiff <= THRESHOLD_HIGH {
          horizDirection := horizDir;
          turningPower := POWER_HIGH;
        }
      }
    }

    /** `drive()`: exactly one of the five actions, the one `Chosen` names. */
    method Drive()
      modifies this
      ensures State() == old(State())
      ensures motors == Output(Chosen(State()), drivingPower, turningPower)
    {
      if vertDirection == IDLE && horizDirection == IDLE {
        Stop();
      } else if vertDirection == POSITIVE {
        DriveForward();
      } else if vertDirection == NEGATIVE {
        DriveBackwards();
      } else if horizDirection == POSITIVE {
        DriveRight();
      } else {
        DriveLeft();
      }
    }
  }
}
