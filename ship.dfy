/**
 * Ferry navigation. Part 1: N/S/E/W move the ship, L/R turn it, F moves it forward.
 * Part 2: N/S/E/W move a waypoint held relative to the ship, L/R rotate the waypoint
 * about the ship, F moves the ship toward the waypoint that many times.
 */
module Navigation {
  import opened Indexing
  import opened ModuloUtils

  datatype Action = N | S | E | W | L | R | F
  datatype Instruction = Instruction(action: Action, value: int)

  /** The compass, in the order of `allCases`: clockwise from north. */
  datatype Direction = North | East | South | West

  function DirectionIndex(d: Direction): (i: nat)
    ensures i < 4
  {
    match d
    case North => 0
    case East => 1
    case South => 2
    case West => 3
  }

  function DirectionAt(i: nat): (d: Direction)
    requires i < 4
    ensures DirectionIndex(d) == i
  {
    [North, East, South, West][i]
  }

  /**
   * Whether `rotated(degrees)` returns: `degrees` is a multiple of 90 (the `assert`), and the
   * index `cur + (degrees + 360) / 90` is not negative (Swift's `%` keeps its sign, and a
   * negative index traps).
   */
  predicate CanRotate(d: Direction, degrees: int)
  {
    degrees % 90 == 0 && DirectionIndex(d) + (degrees + 360) / 90 >= 0
  }

  /** `rotated`: `(degrees + 360) / 90` clockwise quarter turns through N, E, S, W. */
  function Rotated(d: Direction, degrees: int): (r: Direction)
    requires CanRotate(d, degrees)
    ensures DirectionIndex(r) == (DirectionIndex(d) + degrees / 90) % 4
  {
    var clockwiseTurns := (degrees + 360) / 90;
    var cur := DirectionIndex(d);
    assert clockwiseTurns == degrees / 90 + 4;
    DirectionAt(Rem(cur + clockwiseTurns, 4))
  }

  /** Turning left and then right by the same angle faces the ship the way it was. */
  lemma RotatedBack(d: Direction, degrees: int)
    requires degrees % 90 == 0 && -360 <= degrees <= 360
    ensures CanRotate(d, degrees) && CanRotate(Rotated(d, degrees), -degrees)
    ensures Rotated(Rotated(d, degrees), -degrees) == d
  {
    var i := DirectionIndex(d);
    var q := degrees / 90;
    assert (-degrees) / 90 == -q;
    var j := (i + q) % 4;
    assert DirectionIndex(Rotated(d, degrees)) == j;
    assert (j - q) % 4 == i by {
      ModUnique(i + q, 4, (i + q) / 4, j);
      ModUnique(j - q, 4, -((i + q) / 4), i);
    }
  }

  datatype Ship = Ship(location: Index2D, direction: Direction, waypoint: Index2D)

  /** `Ship()`: at the origin, facing east, with the waypoint 10 east and 1 north. */
  const Start := Ship(Index2D(0, 0), East, Index2D(10, 1))

  /** `manhattanDistance`: the distance from the origin along the axes. */
  function ManhattanDistance(ship: Ship): (d: nat)
    ensures d == Abs(ship.location.x) + Abs(ship.location.y)
  {
    Abs(ship.location.x) + Abs(ship.location.y)
  }

  /** The location `value` steps in `d`: north and east are the positive axes. */
  function Moved(p: Index2D, d: Direction, value: int): (q: Index2D)
    ensures d == North ==> q == Index2D(p.x, p.y + value)
    ensures d == South ==> q == Index2D(p.x, p.y - value)
    ensures d == East ==> q == Index2D(p.x + value, p.y)
    ensures d == West ==> q == Index2D(p.x - value, p.y)
  {
    match d
    case North => p.(y := p.y + value)
    case East => p.(x := p.x + value)
    case South => p.(y := p.y - value)
    case West => p.(x := p.x - value)
  }

  /** Moving back the same distance returns to the start, and one move is one step along one axis. */
  lemma MovedBack(p: Index2D, d: Direction, value: int)
    ensures Moved(Moved(p, d, value), d, -value) == p
    ensures Abs(Moved(p, d, value).x - p.x) + Abs(Moved(p, d, value).y - p.y) == Abs(value)
  {
  }

  /** `move`: the ship's location moves; its heading and waypoint stay. */
  method Move(ship: Ship, d: Direction, value: int) returns (ship': Ship)
    ensures ship' == ship.(location := Moved(ship.location, d, value))
  {
    ship' := ship;
    match d
    case North => ship' := ship'.(location := ship'.location.(y := ship'.location.y + value));
    case East => ship' := ship'.(location := ship'.location.(x := ship'.location.x + value));
    case South => ship' := ship'.(location := ship'.location.(y := ship'.location.y - value));
    case West => ship' := ship'.(location := ship'.location.(x := ship'.location.x - value));
  }

  /** `moveWaypoint`: only the waypoint moves. */
  method MoveWaypoint(ship: Ship, d: Direction, value: int) returns (ship': Ship)
    ensures ship' == ship.(waypoint := Moved(ship.waypoint, d, value))
  {
    ship' := ship;
    match d
    case North => ship' := ship'.(waypoint := ship'.waypoint.(y := ship'.waypoint.y + value));
    case East => ship' := ship'.(waypoint := ship'.waypoint.(x := ship'.waypoint.x + value));
    case South => ship' := ship'.(waypoint := ship'.waypoint.(y := ship'.waypoint.y - value));
    case West => ship' := ship'.(waypoint := ship'.waypoint.(x := ship'.waypoint.x - value));
  }

  /** A quarter turn clockwise about the ship. */
  function RotateRight(p: Index2D): Index2D
  {
    Index2D(p.y, p.x * -1)
  }

  function RotateRightN(p: Index2D, n: nat): Index2D
  {
    if n == 0 then p else RotateRight(RotateRightN(p, n - 1))
  }

  lemma {:induction false} RotateRightNAdd(p: Index2D, a: nat, b: nat)
    ensures RotateRightN(p, a + b) == RotateRightN(RotateRightN(p, a), b)
  {
    if b > 0 {
      RotateRightNAdd(p, a, b - 1);
    }
  }

  /** Four quarter turns are the identity, and a turn keeps the distance from the ship. */
  lemma {:induction false} RotateRightNMod(p: Index2D, n: nat)
    ensures RotateRightN(p, n) == RotateRightN(p, n % 4)
    ensures Abs(RotateRightN(p, n).x) + Abs(RotateRightN(p, n).y) == Abs(p.x) + Abs(p.y)
  {
    if n >= 4 {
      RotateRightNMod(p, n - 4);
      RotateRightNAdd(p, 4, n - 4);
      assert RotateRightN(p, 1) == RotateRight(p);
      assert RotateRightN(p, 2) == RotateRight(RotateRight(p));
      assert RotateRightN(p, 3) == RotateRight(RotateRight(RotateRight(p)));
      assert RotateRightN(p, 4) == p;
    } else if n > 0 {
      RotateRightNMod(p, n - 1);
    }
  }

  /**
   * `rotateWaypoint`: `(degrees + 360) / 90` quarter turns clockwise. A negative count makes the
   * range `0 ..< clockwiseTurns` trap, so `degrees` is at least -360 (and a multiple of 90).
   */
  method RotateWaypoint(ship: Ship, degrees: int) returns (ship': Ship)
    requires degrees % 90 == 0 && degrees >= -360
    ensures ship' == ship.(waypoint := RotateRightN(ship.waypoint, (degrees + 360) / 90))
    ensures ship'.waypoint == RotateRightN(ship.waypoint, (degrees / 90) % 4)
  {
    var clockwiseTurns := (degrees + 360) / 90;
    ship' := ship;
    for t := 0 to clockwiseTurns
      invariant ship' == ship.(waypoint := RotateRightN(ship.waypoint, t))
    {
      ship' := ship'.(waypoint := Index2D(ship'.waypoint.y, ship'.waypoint.x * -1));
    }
    assert (degrees + 360) / 90 == degrees / 90 + 4;
    RotateRightNMod(ship.waypoint, clockwiseTurns);
  }

  /** `moveTowardWaypoint`: the ship moves by `value` times the waypoint, which stays put. */
  method MoveTowardWaypoint(ship: Ship, value: int) returns (ship': Ship)
    ensures ship' == ship.(location := Index2D.Plus(ship.location, Index2D(value * ship.waypoint.x, value * ship.waypoint.y)))
  {
    var delta := Index2D(value * ship.waypoint.x, value * ship.waypoint.y);
    ship' := ship.(location := Index2D.Plus(ship.location, delta));
  }

  /** Whether `followInstruction` returns for this heading: a turn must be one `rotated` accepts. */
  predicate CanStep(ship: Ship, i: Instruction)
  {
    (i.action == L ==> CanRotate(ship.direction, -i.value)) &&
    (i.action == R ==> CanRotate(ship.direction, i.value))
  }

  /** Part 1's step: what `followInstruction` does to the ship. */
  function Step(ship: Ship, i: Instruction): Ship
    requires CanStep(ship, i)
  {
    match i.action
    case N => ship.(location := Moved(ship.location, North, i.value))
    case S => ship.(location := Moved(ship.location, South, i.value))
    case E => ship.(location := Moved(ship.location, East, i.value))
    case W => ship.(location := Moved(ship.location, West, i.value))
    case L => ship.(direction := Rotated(ship.direction, -i.value))
    case R => ship.(direction := Rotated(ship.direction, i.value))
    case F => ship.(location := Moved(ship.location, ship.direction, i.value))
  }

  /** A turn in part 1 only changes the heading; every other instruction only the location. */
  lemma StepChangesOneThing(ship: Ship, i: Instruction)
    requires CanStep(ship, i)
    ensures Step(ship, i).waypoint == ship.waypoint
    ensures i.action in {L, R} ==> Step(ship, i).location == ship.location
    ensures i.action !in {L, R} ==> Step(ship, i).direction == ship.direction
  {
  }

  /** `followInstruction`. */
  method FollowInstruction(ship: Ship, instruction: Instruction) returns (ship': Ship)
    requires CanStep(ship, instruction)
    ensures ship' == Step(ship, instruction)
  {
    match instruction.action
    case N => ship' := Move(ship, North, instruction.value);
    case S => ship' := Move(ship, South, instruction.value);
    case E => ship' := Move(ship, East, instruction.value);
    case W => ship' := Move(ship, West, instruction.value);
    case L => ship' := ship.(direction := Rotated(ship.direction, -instruction.value));
    case R => ship' := ship.(direction := Rotated(ship.direction, instruction.value));
    case F => ship' := Move(ship, ship.direction, instruction.value);
  }

  /** Whether `followInstructions` returns: every turn is one `rotated` accepts for the heading the ship has by then. */
  predicate Runnable(ship: Ship, instructions: seq<Instruction>)
    decreases |instructions|
  {
    instructions == [] ||
    (CanStep(ship, instructions[0]) && Runnable(Step(ship, instructions[0]), instructions[1..]))
  }

  function Run(ship: Ship, instructions: seq<Instruction>): Ship
    requires Runnable(ship, instructions)
    decreases |instructions|
  {
    if instructions == [] then ship
    else Run(Step(ship, instructions[0]), instructions[1..])
  }

  /**
   * Multiples of 90 from -360 to 360 turn from any heading, so instructions whose turns
   * all lie in that range can always be followed.
   */
  lemma {:induction false} BoundedTurnsRunnable(ship: Ship, instructions: seq<Instruction>)
    requires forall k :: 0 <= k < |instructions| && instructions[k].action in {L, R} ==>
      instructions[k].value % 90 == 0 && -360 <= instructions[k].value <= 360
    ensures Runnable(ship, instructions)
    decreases |instructions|
  {
    if instructions != [] {
      var rest := instructions[1..];
      assert forall k :: 0 <= k < |rest| ==> rest[k] == instructions[k + 1];
      BoundedTurnsRunnable(Step(ship, instructions[0]), rest);
    }
  }

  /** `followInstructions`: the instructions one after another. */
  method FollowInstructions(ship: Ship, instructions: seq<Instruction>) returns (ship': Ship)
    requires Runnable(ship, instructions)
    ensures ship' == Run(ship, instructions)
  {
    ship' := ship;
    for k := 0 to |instructions|
      invariant Runnable(ship', instructions[k..])
      invariant Run(ship', instructions[k..]) == Run(ship, instructions)
    {
      assert instructions[k..][1..] == instructions[k + 1..];
      ship' := FollowInstruction(ship', instructions[k]);
    }
  }

  /**
   * Whether `followInstruction2` returns: `rotateWaypoint` asserts a multiple of 90 and
   * traps on fewer than zero quarter turns, so L turns at most 360 and R at least -360.
   */
  predicate CanStep2(i: Instruction)
  {
    (i.action == L ==> i.value % 90 == 0 && -i.value >= -360) &&
    (i.action == R ==> i.value % 90 == 0 && i.value >= -360)
  }

  /** Part 2's step: what `followInstruction2` does to the ship. */
  function Step2(ship: Ship, i: Instruction): Ship
    requires CanStep2(i)
  {
    match i.action
    case N => ship.(waypoint := Moved(ship.waypoint, North, i.value))
    case S => ship.(waypoint := Moved(ship.waypoint, South, i.value))
    case E => ship.(waypoint := Moved(ship.waypoint, East, i.value))
    case W => ship.(waypoint := Moved(ship.waypoint, West, i.value))
    case L => ship.(waypoint := RotateRightN(ship.waypoint, (-i.value + 360) / 90))
    case R => ship.(waypoint := RotateRightN(ship.waypoint, (i.value + 360) / 90))
    case F => ship.(location := Index2D.Plus(ship.location, Index2D(i.value * ship.waypoint.x, i.value * ship.waypoint.y)))
  }

  /** In part 2 only F moves the ship, and nothing changes its heading. */
  lemma Step2ChangesOneThing(ship: Ship, i: Instruction)
    requires CanStep2(i)
    ensures Step2(ship, i).direction == ship.direction
    ensures i.action != F ==> Step2(ship, i).location == ship.location
    ensures i.action == F ==> Step2(ship, i).waypoint == ship.waypoint
  {
  }

  /** `followInstruction2`. */
  method FollowInstruction2(ship: Ship, instruction: Instruction) returns (ship': Ship)
    requires CanStep2(instruction)
    ensures ship' == Step2(ship, instruction)
  {
    match instruction.action
    case N => ship' := MoveWaypoint(ship, North, instruction.value);
    case S => ship' := MoveWaypoint(ship, South, instruction.value);
    case E => ship' := MoveWaypoint(ship, East, instruction.value);
    case W => ship' := MoveWaypoint(ship, West, instruction.value);
    case L => ship' := RotateWaypoint(ship, -instruction.value);
    case R => ship' := RotateWaypoint(ship, instruction.value);
    case F => ship' := MoveTowardWaypoint(ship, instruction.value);
  }

  function Run2(ship: Ship, instructions: seq<Instruction>): Ship
    requires forall k :: 0 <= k < |instructions| ==> CanStep2(instructions[k])
    decreases |instructions|
  {
    if instructions == [] then ship
    else Run2(Step2(ship, instructions[0]), instructions[1..])
  }

  /** `followInstructions2`. */
  method FollowInstructions2(ship: Ship, instructions: seq<Instruction>) returns (ship': Ship)
    requires forall k :: 0 <= k < |instructions| ==> CanStep2(instructions[k])
    ensures ship' == Run2(ship, instructions)
  {
    ship' := ship;
    for k := 0 to |instructions|
      invariant Run2(ship', instructions[k..]) == Run2(ship, instructions)
    {
      assert instructions[k..][1..] == instructions[k + 1..];
      ship' := FollowInstruction2(ship', instructions[k]);
    }
  }

  const Example := [Instruction(F, 10), Instruction(N, 3), Instruction(F, 7), Instruction(R, 90), Instruction(F, 11)]

  /** Part 1 of the example ends at (17, -8), 25 from the start. */
  lemma ExampleRun()
    ensures Runnable(Start, Example)
    ensures Run(Start, Example).location == Index2D(17, -8)
    ensures ManhattanDistance(Run(Start, Example)) == 25
  {
  }

  /** Part 2 of the example ends at (214, -72), 286 from the start. */
  lemma ExampleRun2()
    ensures forall k :: 0 <= k < |Example| ==> CanStep2(Example[k])
    ensures Run2(Start, Example).location == Index2D(214, -72)
    ensures ManhattanDistance(Run2(Start, Example)) == 286
  {
    var e := Example;
    assert forall k :: 0 <= k < |e| ==> CanStep2(e[k]);
    var w := Index2D(4, -10);
    assert RotateRightN(Index2D(10, 4), 5) == w by {
      assert RotateRightN(Index2D(10, 4), 4) == Index2D(10, 4) by {
        RotateRightNMod(Index2D(10, 4), 4);
      }
    }
    var s4 := Ship(Index2D(170, 38), East, w);
    assert Run2(s4, e[4..]) == Ship(Index2D(214, -72), East, w) by {
      assert e[4..][1..] == [];
    }
    var s3 := Ship(Index2D(170, 38), East, Index2D(10, 4));
    assert Run2(s3, e[3..]) == Run2(s4, e[4..]) by {
      assert e[3..][1..] == e[4..];
    }
    var s2 := Ship(Index2D(100, 10), East, Index2D(10, 4));
    assert Run2(s2, e[2..]) == Run2(s3, e[3..]) by {
      assert e[2..][1..] == e[3..];
    }
    var s1 := Ship(Index2D(100, 10), East, Index2D(10, 1));
    assert Run2(s1, e[1..]) == Run2(s2, e[2..]) by {
      assert e[1..][1..] == e[2..];
    }
    assert Run2(Start, e) == Run2(s1, e[1..]);
  }
}
