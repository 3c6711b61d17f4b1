/**
 * Day 14: robots on a floor that wraps around at its edges. Each robot has
 * a start position and a velocity; after a number of seconds the floor is
 * split into four quadrants around its middle column and row, and the
 * safety factor is the product of the numbers of robots in them.
 */
module Day14 {
  import opened Wrappers

  datatype Position = Position(x: nat, y: nat)

  datatype Vector = Vector(deltaX: int, deltaY: int)

  datatype Robot = Robot(initialPosition: Position, velocity: Vector)

  datatype Quadrant = Northwest | Northeast | Southwest | Southeast

  /** The robots and the floor's size; the robots are already parsed. */
  datatype Floor = Floor(robots: seq<Robot>, width: nat, height: nat)

  // ---------------------------------------------------------------------------
  // Moving along one axis
  // ---------------------------------------------------------------------------

  /** Rust's `%` on `i32`: the remainder of division truncated toward zero. */
  function Rem(a: int, b: nat): (r: int)
    requires b > 0
    ensures -(b as int) < r < b
    ensures a >= 0 ==> r == a % b
    ensures a < 0 ==> r <= 0
    ensures (a - r) % b == 0
  {
    if a >= 0 then
      RemNonNegative(a, b);
      a % b
    else
      RemNegative(a, b);
      -((-a) % b)
  }

  lemma RemNonNegative(a: int, b: nat)
    requires b > 0
    ensures (a - a % b) % b == 0
  {
    DivModUnique(a - a % b, b, a / b, 0);
  }

  lemma RemNegative(a: int, b: nat)
    requires b > 0 && a < 0
    ensures (a + (-a) % b) % b == 0
  {
    var k, m := (-a) / b, (-a) % b;
    assert -a == b * k + m;
    assert b * (-k) == -(b * k);
    DivModUnique(a + m, b, -k, 0);
  }

  /**
   * The coordinate `run` computes: `seconds * (pos + delta)` by Rust's `%`
   * with the size, plus the size when negative. It lands on the floor, and
   * it is the residue of `seconds * (pos + delta)` modulo the size.
   */
  function Coordinate(pos: nat, delta: int, seconds: int, size: nat): (c: nat)
    requires size > 0
    ensures c < size
    ensures c == (seconds * (pos + delta)) % size
  {
    var v := Rem(seconds * (pos + delta), size);
    ModOfMultiple(seconds * (pos + delta), v, size);
    if v < 0 then v + size else v
  }

  /** A number between `-size` and `size` that differs from `a` by a multiple of `size` is its residue, once made non-negative. */
  lemma ModOfMultiple(a: int, v: int, size: nat)
    requires size > 0 && -(size as int) < v < size && (a - v) % size == 0
    ensures (if v < 0 then v + size else v) == a % size
  {
    var w := if v < 0 then v + size else v;
    var q := (a - v) / size;
    assert a - v == size * q;
    var q' := if v < 0 then q - 1 else q;
    assert a == size * q' + w;
    DivModUnique(a, size, q', w);
  }

  /** Euclidean division is determined by its remainder's range. */
  lemma DivModUnique(a: int, size: nat, q: int, r: int)
    requires size > 0 && 0 <= r < size && a == size * q + r
    ensures a % size == r && a / size == q
  {
    var q0, r0 := a / size, a % size;
    assert a == size * q0 + r0;
    assert size * (q - q0) == r0 - r;
    if q > q0 {
      MulAtLeast(size, q - q0);
    } else if q < q0 {
      MulAtLeast(size, q0 - q);
    }
  }

  lemma MulAtLeast(size: nat, k: int)
    requires size > 0 && k >= 1
    ensures size * k >= size
  {
  }

  /** Where a robot evidently should be after `seconds` seconds: `pos + seconds * delta`, wrapped. */
  function Intended(pos: nat, delta: int, seconds: int, size: nat): (c: nat)
    requires size > 0
    ensures c < size
  {
    (pos + seconds * delta) % size
  }

  /** One more second moves the intended coordinate by one step of `delta`, wrapped. */
  lemma IntendedStep(pos: nat, delta: int, seconds: int, size: nat)
    requires size > 0
    ensures Intended(pos, delta, seconds + 1, size) == Intended(Intended(pos, delta, seconds, size), delta, 1, size)
  {
    var a := pos + seconds * delta;
    var r := a % size;
    var q := a / size;
    assert a == size * q + r;
    var n := a + delta;
    assert pos + (seconds + 1) * delta == n;
    var q2, r2 := (r + delta) / size, (r + delta) % size;
    assert r + delta == size * q2 + r2;
    assert n == size * (q + q2) + r2;
    DivModUnique(n, size, q + q2, r2);
  }

  /** With no time passed the intended coordinate is the start. */
  lemma IntendedStart(pos: nat, delta: int, size: nat)
    requires pos < size
    ensures Intended(pos, delta, 0, size) == pos
  {
  }

  /**
   * The robot at `(2, 4)` with velocity `(2, -3)` on an 11 by 7 floor is at
   * `(1, 3)` after 5 seconds, but the formula `run` uses puts it at `(9, 5)`.
   */
  lemma RunFormulaDiffers()
    ensures Coordinate(2, 2, 5, 11) == 9 && Intended(2, 2, 5, 11) == 1
    ensures Coordinate(4, -3, 5, 7) == 5 && Intended(4, -3, 5, 7) == 3
  {
  }

  /** A robot's position after `run(seconds)` from `p`, as the source computes it. */
  function Advanced(p: Position, v: Vector, seconds: int, width: nat, height: nat): (q: Position)
    requires width > 0 && height > 0
    ensures q.x < width && q.y < height
  {
    Position(Coordinate(p.x, v.deltaX, seconds, width), Coordinate(p.y, v.deltaY, seconds, height))
  }

  // ---------------------------------------------------------------------------
  // Quadrants
  // ---------------------------------------------------------------------------

  /** `nw.x <= p.x < se.x` and `nw.y <= p.y < se.y`: the test of `get_robots`. */
  predicate Within(p: Position, nw: Position, se: Position)
  {
    nw.x <= p.x < se.x && nw.y <= p.y < se.y
  }

  /** The north-west corner `get_quadrant_robots` passes for a quadrant. */
  function NorthwestCorner(q: Quadrant, width: nat, height: nat): Position
  {
    match q
    case Northwest => Position(0, 0)
    case Northeast => Position(width / 2 + 1, 0)
    case Southeast => Position(width / 2 + 1, height / 2 + 1)
    case Southwest => Position(0, height / 2 + 1)
  }

  /** The south-east corner, exclusive, `get_quadrant_robots` passes for a quadrant. */
  function SoutheastCorner(q: Quadrant, width: nat, height: nat): Position
  {
    match q
    case Northwest => Position(width / 2, height / 2)
    case Northeast => Position(width, height / 2)
    case Southeast => Position(width, height)
    case Southwest => Position(width / 2, height)
  }

  predicate InQuadrant(p: Position, q: Quadrant, width: nat, height: nat)
  {
    Within(p, NorthwestCorner(q, width, height), SoutheastCorner(q, width, height))
  }

  /** No position is in two quadrants, and none on the middle column or row is in any. */
  lemma QuadrantsDisjoint(p: Position, q1: Quadrant, q2: Quadrant, width: nat, height: nat)
    ensures InQuadrant(p, q1, width, height) && InQuadrant(p, q2, width, height) ==> q1 == q2
    ensures p.x == width / 2 ==> !InQuadrant(p, q1, width, height)
    ensures p.y == height / 2 ==> !InQuadrant(p, q1, width, height)
  {
  }

  /** Every position on the floor off the middle column and row is in some quadrant. */
  lemma QuadrantsCover(p: Position, width: nat, height: nat)
    requires p.x < width && p.y < height && p.x != width / 2 && p.y != height / 2
    ensures exists q :: InQuadrant(p, q, width, height)
  {
    var q := if p.x < width / 2 then (if p.y < height / 2 then Northwest else Southwest)
             else (if p.y < height / 2 then Northeast else Southeast);
    assert InQuadrant(p, q, width, height);
  }

  /** The robots of `positions` whose position lies in the box from `nw` to `se`. */
  function InBox(positions: map<Robot, Position>, nw: Position, se: Position): (r: map<Robot, Position>)
    ensures r.Keys <= positions.Keys
    ensures forall robot :: robot in r <==> robot in positions && Within(positions[robot], nw, se)
    ensures forall robot :: robot in r ==> r[robot] == positions[robot]
  {
    map robot | robot in positions && Within(positions[robot], nw, se) :: positions[robot]
  }

  /** The number of robots in a quadrant. */
  function QuadrantCount(positions: map<Robot, Position>, q: Quadrant, width: nat, height: nat): nat
  {
    |InBox(positions, NorthwestCorner(q, width, height), SoutheastCorner(q, width, height))|
  }

  /** The safety factor of the positions: the product of the four quadrant counts. */
  function Safety(positions: map<Robot, Position>, width: nat, height: nat): nat
  {
    Product(QuadrantCount(positions, Northeast, width, height), QuadrantCount(positions, Northwest, width, height),
            QuadrantCount(positions, Southwest, width, height), QuadrantCount(positions, Southeast, width, height))
  }

  function Product(a: nat, b: nat, c: nat, d: nat): nat
  {
    MulNat(a, b);
    MulNat(a * b, c);
    MulNat(a * b * c, d);
    a * b * c * d
  }

  lemma MulNat(a: nat, b: nat)
    ensures a * b >= 0
  {
  }

  /** The safety factor is zero exactly when some quadrant holds no robot. */
  lemma SafetyZero(positions: map<Robot, Position>, width: nat, height: nat)
    ensures Safety(positions, width, height) == 0 <==> exists q :: QuadrantCount(positions, q, width, height) == 0
  {
    var ne := QuadrantCount(positions, Northeast, width, height);
    var nw := QuadrantCount(positions, Northwest, width, height);
    var sw := QuadrantCount(positions, Southwest, width, height);
    var se := QuadrantCount(positions, Southeast, width, height);
    assert Safety(positions, width, height) == Product(ne, nw, sw, se);
    ProductZero(ne, nw, sw, se);
    if Safety(positions, width, height) == 0 {
      var q := if ne == 0 then Northeast else if nw == 0 then Northwest else if sw == 0 then Southwest else Southeast;
      assert QuadrantCount(positions, q, width, height) == 0;
    }
    if q :| QuadrantCount(positions, q, width, height) == 0 {
      assert ne == 0 || nw == 0 || sw == 0 || se == 0 by {
        match q
        case Northeast =>
        case Northwest =>
        case Southwest =>
        case Southeast =>
      }
    }
  }

  lemma ProductZero(a: nat, b: nat, c: nat, d: nat)
    ensures Product(a, b, c, d) == 0 <==> a == 0 || b == 0 || c == 0 || d == 0
  {
    if a != 0 && b != 0 && c != 0 && d != 0 {
      MulPositive(a, b);
      MulPositive(a * b, c);
      MulPositive(a * b * c, d);
    }
  }

  lemma MulPositive(a: nat, b: nat)
    requires a > 0 && b > 0
    ensures a * b > 0
  {
  }

  /** Each robot of the list at its start position: duplicates of one robot share one entry. */
  function StartPositions(robots: seq<Robot>): (m: map<Robot, Position>)
    ensures forall robot :: robot in m <==> robot in robots
    ensures forall robot :: robot in m ==> m[robot] == robot.initialPosition
  {
    map robot | robot in robots :: robot.initialPosition
  }

  /** Every robot of `positions` moved for `seconds` seconds. */
  function AllAdvanced(positions: map<Robot, Position>, seconds: int, width: nat, height: nat): (m: map<Robot, Position>)
    requires width > 0 && height > 0
    ensures m.Keys == positions.Keys
    ensures forall robot :: robot in m ==> m[robot] == Advanced(positions[robot], robot.velocity, seconds, width, height)
  {
    map robot | robot in positions :: Advanced(positions[robot], robot.velocity, seconds, width, height)
  }

  // ---------------------------------------------------------------------------
  // The simulation
  // ---------------------------------------------------------------------------

  class Simulation {
    var floor: Floor
    var robotPositions: map<Robot, Position>

    /** `Simulation::new`: every distinct robot at its start position. */
    constructor (floor: Floor)
      ensures this.floor == floor
      ensures robotPositions == StartPositions(floor.robots)
    {
      var positions: map<Robot, Position> := map[];
      for i := 0 to |floor.robots|
        invariant forall robot :: robot in positions <==> robot in floor.robots[..i]
        invariant forall robot :: robot in positions ==> positions[robot] == robot.initialPosition
      {
        var robot := floor.robots[i];
        assert floor.robots[..i + 1] == floor.robots[..i] + [robot];
        positions := positions[robot := robot.initialPosition];
      }
      assert floor.robots[..|floor.robots|] == floor.robots;
      this.floor := floor;
      robotPositions := positions;
    }

    /**
     * `run`: move every robot for `seconds` seconds by the source's formula.
     * The robots are taken in any order: each one's move depends only on its
     * own entry. The source divides by the floor's width and height.
     */
    method Run(seconds: int)
      requires floor.width > 0 && floor.height > 0
      modifies this
      ensures floor == old(floor)
      ensures robotPositions == AllAdvanced(old(robotPositions), seconds, floor.width, floor.height)
    {
      var positions := robotPositions;
      var remaining := positions.Keys;
      while remaining != {}
        invariant remaining <= robotPositions.Keys && positions.Keys == robotPositions.Keys
        invariant forall robot :: robot in positions && robot !in remaining ==>
          positions[robot] == Advanced(robotPositions[robot], robot.velocity, seconds, floor.width, floor.height)
        invariant forall robot :: robot in remaining ==> positions[robot] == robotPositions[robot]
        decreases |remaining|
      {
        var robot :| robot in remaining;
        var position := positions[robot];
        var x := Rem(seconds * (position.x + robot.velocity.deltaX), floor.width);
        var y := Rem(seconds * (position.y + robot.velocity.deltaY), floor.height);
        var newX := if x < 0 then x + floor.width else x;
        var newY := if y < 0 then y + floor.height else y;
        assert Advanced(position, robot.velocity, seconds, floor.width, floor.height) == Position(newX, newY);
        positions := positions[robot := Position(newX, newY)];
        remaining := remaining - {robot};
      }
      robotPositions := positions;
    }

    /** `get_robots`: the robots whose position lies in the box from `nw` to `se`. */
    method GetRobots(nw: Position, se: Position) returns (result: map<Robot, Position>)
      ensures result == InBox(robotPositions, nw, se)
    {
      result := map[];
      var remaining := robotPositions.Keys;
      while remaining != {}
        invariant remaining <= robotPositions.Keys
        invariant forall robot :: robot in result <==>
          robot in robotPositions && robot !in remaining && Within(robotPositions[robot], nw, se)
        invariant forall robot :: robot in result ==> result[robot] == robotPositions[robot]
        decreases |remaining|
      {
        var robot :| robot in remaining;
        var position := robotPositions[robot];
        if position.x >= nw.x && position.x < se.x && position.y >= nw.y && position.y < se.y {
          result := result[robot := position];
        }
        remaining := remaining - {robot};
      }
    }

    /** `get_quadrant_robots`: the robots in `quadrant`. */
    method GetQuadrantRobots(quadrant: Quadrant) returns (result: map<Robot, Position>)
      ensures result == InBox(robotPositions, NorthwestCorner(quadrant, floor.width, floor.height),
                              SoutheastCorner(quadrant, floor.width, floor.height))
    {
      match quadrant
      case Northwest =>
        result := GetRobots(Position(0, 0), Position(floor.width / 2, floor.height / 2));
      case Northeast =>
        result := GetRobots(Position(floor.width / 2 + 1, 0), Position(floor.width, floor.height / 2));
      case Southeast =>
        result := GetRobots(Position(floor.width / 2 + 1, floor.height / 2 + 1), Position(floor.width, floor.height));
      case Southwest =>
        result := GetRobots(Position(0, floor.height / 2 + 1), Position(floor.width / 2, floor.height));
    }

    /** `compute_safety_factor`: the product of the quadrants' robot counts. */
    method ComputeSafetyFactor() returns (factor: nat)
      ensures factor == Safety(robotPositions, floor.width, floor.height)
    {
      var ne := GetQuadrantRobots(Northeast);
      var nw := GetQuadrantRobots(Northwest);
      var sw := GetQuadrantRobots(Southwest);
      var se := GetQuadrantRobots(Southeast);
      factor := Product(|ne|, |nw|, |sw|, |se|);
    }
  }

  /**
   * `part_one` from the parsed robots: on a 101 by 103 floor, the safety
   * factor after 100 seconds.
   */
  method PartOne(robots: seq<Robot>) returns (r: Option<nat>)
    ensures r == Some(Safety(AllAdvanced(StartPositions(robots), 100, 101, 103), 101, 103))
  {
    var simulation := new Simulation(Floor(robots, 101, 103));
    simulation.Run(100);
    var factor := simulation.ComputeSafetyFactor();
    r := Some(factor);
  }

  // ---------------------------------------------------------------------------
  // Matching the whole input on every line
  // ---------------------------------------------------------------------------

  /**
   * The robots `Floor::new` collects as written: for each of the input's
   * lines it matches the pattern against the whole trimmed input, whose first
   * match is always the first robot, so the list is that robot once per line.
   */
  function WholeInputRobots(first: Robot, lines: nat): (robots: seq<Robot>)
    ensures |robots| == lines
    ensures forall robot :: robot in robots ==> robot == first
  {
    seq(lines, _ => first)
  }

  /** With at most one robot on the floor, some quadrant is empty and the safety factor is zero. */
  lemma SingleRobotSafetyZero(positions: map<Robot, Position>, first: Robot, width: nat, height: nat)
    requires positions.Keys <= {first}
    ensures Safety(positions, width, height) == 0
  {
    var q := if first in positions && InQuadrant(positions[first], Northeast, width, height) then Northwest else Northeast;
    if first in positions {
      QuadrantsDisjoint(positions[first], Northeast, Northwest, width, height);
    }
    var inside := InBox(positions, NorthwestCorner(q, width, height), SoutheastCorner(q, width, height));
    assert inside == map[];
    assert QuadrantCount(positions, q, width, height) == 0;
    SafetyZero(positions, width, height);
  }

  /**
   * As written, `part_one`'s safety factor is zero for every input: the
   * robots are copies of one robot, which share one entry of the position map.
   */
  lemma WholeInputSafetyZero(first: Robot, lines: nat, seconds: int, width: nat, height: nat)
    requires width > 0 && height > 0
    ensures Safety(AllAdvanced(StartPositions(WholeInputRobots(first, lines)), seconds, width, height), width, height) == 0
  {
    SingleRobotSafetyZero(AllAdvanced(StartPositions(WholeInputRobots(first, lines)), seconds, width, height), first, width, height);
  }

  /** A quadrant holding one of the robots counts at least one. */
  lemma QuadrantHolds(positions: map<Robot, Position>, robot: Robot, q: Quadrant, width: nat, height: nat)
    requires robot in positions && InQuadrant(positions[robot], q, width, height)
    ensures QuadrantCount(positions, q, width, height) >= 1
  {
    var inside := InBox(positions, NorthwestCorner(q, width, height), SoutheastCorner(q, width, height));
    assert robot in inside.Keys;
  }

  /**
   * Read one robot per line, as intended, robots that end up in all four
   * quadrants give a positive safety factor.
   */
  lemma PerLineSafetyPositive(robots: seq<Robot>, ne: Robot, nw: Robot, sw: Robot, se: Robot, seconds: int, width: nat, height: nat)
    requires width > 0 && height > 0
    requires ne in robots && nw in robots && sw in robots && se in robots
    requires InQuadrant(Advanced(ne.initialPosition, ne.velocity, seconds, width, height), Northeast, width, height)
    requires InQuadrant(Advanced(nw.initialPosition, nw.velocity, seconds, width, height), Northwest, width, height)
    requires InQuadrant(Advanced(sw.initialPosition, sw.velocity, seconds, width, height), Southwest, width, height)
    requires InQuadrant(Advanced(se.initialPosition, se.velocity, seconds, width, height), Southeast, width, height)
    ensures Safety(AllAdvanced(StartPositions(robots), seconds, width, height), width, height) > 0
  {
    var positions := AllAdvanced(StartPositions(robots), seconds, width, height);
    QuadrantHolds(positions, ne, Northeast, width, height);
    QuadrantHolds(positions, nw, Northwest, width, height);
    QuadrantHolds(positions, sw, Southwest, width, height);
    QuadrantHolds(positions, se, Southeast, width, height);
    ProductZero(QuadrantCount(positions, Northeast, width, height), QuadrantCount(positions, Northwest, width, height),
                QuadrantCount(positions, Southwest, width, height), QuadrantCount(positions, Southeast, width, height));
  }
}
