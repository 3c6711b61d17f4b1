/**
 * Day 6: a guard patrols a lab map. The guard walks straight ahead, turns right
 * in front of a column, marks every tile it stands on as visited and leaves the
 * simulation when it steps off the map. Every step from one tile to the next is
 * recorded as an edge; stepping along an edge a second time is a cycle.
 *
 * The pure part (`TickSpec`, `RunSpec`) is the specification the imperative
 * classes `LabMap` and `Simulation` are proved against.
 */
module Day06 {
  import opened Wrappers
  import opened Text

  datatype Position = Position(x: nat, y: nat)

  datatype Direction = Up | Down | Left | Right

  /** The place of a heading on the compass, clockwise from Up. */
  function Clockwise(d: Direction): nat
  {
    match d
    case Up => 0
    case Right => 1
    case Down => 2
    case Left => 3
  }

  /** `Guard::turn`: a quarter turn to the right. */
  function Turn(d: Direction): (r: Direction)
    ensures Clockwise(r) == (Clockwise(d) + 1) % 4
  {
    match d
    case Up => Right
    case Right => Down
    case Down => Left
    case Left => Up
  }

  /** Four quarter turns face the guard the way it started; fewer do not. */
  lemma FourTurns(d: Direction)
    ensures Turn(Turn(Turn(Turn(d)))) == d
    ensures Turn(d) != d && Turn(Turn(d)) != d && Turn(Turn(Turn(d))) != d
  {
  }

  predicate IsGuardChar(c: char)
  {
    c == '^' || c == '>' || c == '<' || c == 'v'
  }

  /** The characters `Tile::new` accepts. */
  predicate IsMapChar(c: char)
  {
    c == '.' || c == '#' || IsGuardChar(c)
  }

  /** `Direction::to_char`. */
  function ToChar(d: Direction): (c: char)
    ensures IsGuardChar(c)
  {
    match d
    case Up => '^'
    case Right => '>'
    case Left => '<'
    case Down => 'v'
  }

  /** `Direction::from_char`; any other character panics. */
  function FromChar(c: char): (d: Direction)
    requires IsGuardChar(c)
    ensures ToChar(d) == c
  {
    match c
    case '^' => Up
    case '>' => Right
    case '<' => Left
    case 'v' => Down
  }

  lemma CharRoundTrip(d: Direction)
    ensures FromChar(ToChar(d)) == d
  {
  }

  /** A tile of the map; `visited` records that the guard stood on it. */
  datatype Tile = Empty(visited: bool) | Column
  {
    predicate IsColumn() { Column? }

    predicate IsVisited() { Empty? && visited }
  }

  /** `Tile::new`: any character other than `.`, `#` and the four guard characters panics. */
  function NewTile(c: char): (t: Tile)
    requires IsMapChar(c)
    ensures t.IsColumn() <==> c == '#'
    ensures t.IsVisited() <==> IsGuardChar(c)
  {
    if c == '.' then Empty(false)
    else if IsGuardChar(c) then Empty(true)
    else Column
  }

  datatype Guard = Guard(position: Position, direction: Direction)
  {
    /** The guard after `Guard::turn`: same place, heading turned right. */
    function Turned(): (g: Guard)
      ensures g.position == position && g.direction == Turn(direction)
    {
      Guard(position, Turn(direction))
    }
  }

  /** `Guard::new(x, y, c)`. */
  function NewGuard(x: nat, y: nat, c: char): (g: Guard)
    requires IsGuardChar(c)
    ensures g.position == Position(x, y) && ToChar(g.direction) == c
  {
    Guard(Position(x, y), FromChar(c))
  }

  /** A move from one tile to the next. */
  datatype Edge = Edge(from: Position, to: Position)

  datatype SimulationStatus = InProgress | GuardExited | GuardCycle

  /** Every row as long as the first, and at least one row. */
  predicate Rectangular<T>(rows: seq<seq<T>>)
  {
    |rows| > 0 && forall y :: 0 <= y < |rows| ==> |rows[y]| == |rows[0]|
  }

  /** The bounds check of `move_guard` and `is_column`, which measure rows by the first one. */
  predicate InGrid<T>(rows: seq<seq<T>>, p: Position)
    requires |rows| > 0
  {
    p.x < |rows[0]| && p.y < |rows|
  }

  function AbsDiff(a: nat, b: nat): nat
  {
    if a < b then b - a else a - b
  }

  /** The assertion of `move_guard`: the guard moves exactly one square. */
  predicate UnitStep(a: Position, b: Position)
  {
    AbsDiff(a.x, b.x) + AbsDiff(a.y, b.y) == 1
  }

  /** `LabMap::is_column`. */
  function ColumnAt(tiles: seq<seq<Tile>>, p: Option<Position>): (r: bool)
    requires Rectangular(tiles)
    ensures r <==> p.Some? && InGrid(tiles, p.value) && tiles[p.value.y][p.value.x] == Column
  {
    match p
    case None => false
    case Some(q) =>
      if q.x >= |tiles[0]| || q.y >= |tiles| then false
      else tiles[q.y][q.x].IsColumn()
  }

  /**
   * The position the guard faces, as `tick` computes it. The Down and Right
   * branches compare with the last row and column rather than the size, so
   * they never give `None`: stepping off the bottom or right edge yields a
   * position just outside the map.
   */
  function Ahead(tiles: seq<seq<Tile>>, g: Guard): (r: Option<Position>)
    requires Rectangular(tiles) && InGrid(tiles, g.position)
    ensures r.None? <==> (g.direction == Up && g.position.y == 0) || (g.direction == Left && g.position.x == 0)
    ensures r.Some? ==> UnitStep(g.position, r.value)
    ensures r.Some? ==> r.value.x <= |tiles[0]| && r.value.y <= |tiles|
  {
    var maxCol := |tiles[0]| - 1;
    var maxRow := |tiles| - 1;
    var p := g.position;
    match g.direction
    case Down => if p.y > maxRow then None else Some(Position(p.x, p.y + 1))
    case Up => if p.y == 0 then None else Some(Position(p.x, p.y - 1))
    case Right => if p.x > maxCol then None else Some(Position(p.x + 1, p.y))
    case Left => if p.x == 0 then None else Some(Position(p.x - 1, p.y))
  }

  /** A column right in front of the guard. */
  predicate Blocked(tiles: seq<seq<Tile>>, g: Guard)
    requires Rectangular(tiles) && InGrid(tiles, g.position)
  {
    ColumnAt(tiles, Ahead(tiles, g))
  }

  /** Columns on all four sides of `p`: `tick` then turns forever and `run` never returns. */
  predicate Boxed(tiles: seq<seq<Tile>>, p: Position)
    requires Rectangular(tiles) && InGrid(tiles, p)
  {
    Blocked(tiles, Guard(p, Up)) && Blocked(tiles, Guard(p, Right))
    && Blocked(tiles, Guard(p, Down)) && Blocked(tiles, Guard(p, Left))
  }

  /** How many right turns the guard needs to face something other than a column. */
  function TurnsToOpen(tiles: seq<seq<Tile>>, g: Guard): (n: nat)
    requires Rectangular(tiles) && InGrid(tiles, g.position)
    ensures n <= 3
  {
    if !Blocked(tiles, g) then 0
    else if !Blocked(tiles, g.Turned()) then 1
    else if !Blocked(tiles, g.Turned().Turned()) then 2
    else 3
  }

  /** Facing a column, one turn brings the guard one turn closer to an open side. */
  lemma TurnApproachesOpen(tiles: seq<seq<Tile>>, g: Guard)
    requires Rectangular(tiles) && InGrid(tiles, g.position)
    requires Blocked(tiles, g) && !Boxed(tiles, g.position)
    ensures TurnsToOpen(tiles, g) >= 1
    ensures TurnsToOpen(tiles, g.Turned()) == TurnsToOpen(tiles, g) - 1
  {
    var p := g.position;
    assert g == Guard(p, g.direction);
    match g.direction
    case Up =>
      assert g.Turned().Turned().Turned() == Guard(p, Left);
    case Right =>
      assert g.Turned().Turned().Turned() == Guard(p, Up);
    case Down =>
      assert g.Turned().Turned().Turned() == Guard(p, Right);
    case Left =>
      assert g.Turned().Turned().Turned() == Guard(p, Down);
  }

  /** `Tile::visit` at `p`; visiting a column panics. */
  function Visited(tiles: seq<seq<Tile>>, p: Position): (r: seq<seq<Tile>>)
    requires p.y < |tiles| && p.x < |tiles[p.y]| && !tiles[p.y][p.x].IsColumn()
    ensures Evolves(tiles, r)
    ensures r[p.y][p.x] == Empty(true)
    ensures forall y, x :: 0 <= y < |r| && 0 <= x < |r[y]| && (y != p.y || x != p.x) ==> r[y][x] == tiles[y][x]
  {
    tiles[p.y := tiles[p.y][p.x := Empty(true)]]
  }

  /** `LabMap::add_column` at `p`. */
  function ColumnAdded(tiles: seq<seq<Tile>>, p: Position): (r: seq<seq<Tile>>)
    requires p.y < |tiles| && p.x < |tiles[p.y]|
    ensures SameShape(tiles, r)
    ensures r[p.y][p.x] == Column
    ensures forall y, x :: 0 <= y < |r| && 0 <= x < |r[y]| && (y != p.y || x != p.x) ==> r[y][x] == tiles[y][x]
  {
    tiles[p.y := tiles[p.y][p.x := Column]]
  }

  predicate SameShape<T, U>(a: seq<seq<T>>, b: seq<seq<U>>)
  {
    |a| == |b| && forall y :: 0 <= y < |a| ==> |a[y]| == |b[y]|
  }

  /**
   * How the tiles may change while the guard walks: the shape and the columns
   * stay, and a visited tile stays visited.
   */
  predicate Evolves(a: seq<seq<Tile>>, b: seq<seq<Tile>>)
  {
    SameShape(a, b)
    && forall y, x :: 0 <= y < |a| && 0 <= x < |a[y]| ==>
         (b[y][x].IsColumn() <==> a[y][x].IsColumn()) && (a[y][x].IsVisited() ==> b[y][x].IsVisited())
  }

  lemma EvolvesTransitive(a: seq<seq<Tile>>, b: seq<seq<Tile>>, c: seq<seq<Tile>>)
    requires Evolves(a, b) && Evolves(b, c)
    ensures Evolves(a, c)
  {
  }

  /** The guard stands on an in-grid tile it has visited. */
  predicate GuardOnMap(tiles: seq<seq<Tile>>, guard: Option<Guard>)
    requires Rectangular(tiles)
  {
    guard.Some? ==>
      var p := guard.value.position;
      InGrid(tiles, p) && tiles[p.y][p.x] == Empty(true)
  }

  /**
   * `LabMap::move_guard`. Without a guard nothing happens. A step off the map
   * removes the guard without visiting anything; otherwise the old and the
   * new tile are visited and the guard keeps its heading.
   */
  function MoveGuardSpec(tiles: seq<seq<Tile>>, guard: Option<Guard>, np: Position): (r: (seq<seq<Tile>>, Option<Guard>))
    requires Rectangular(tiles)
    requires guard.Some? ==> UnitStep(guard.value.position, np)
    requires guard.Some? ==> var p := guard.value.position; InGrid(tiles, p) && !tiles[p.y][p.x].IsColumn()
    requires guard.Some? && InGrid(tiles, np) ==> !tiles[np.y][np.x].IsColumn()
    ensures Evolves(tiles, r.0)
    ensures guard.None? ==> r == (tiles, None)
    ensures guard.Some? && !InGrid(tiles, np) ==> r == (tiles, None)
    ensures guard.Some? && InGrid(tiles, np) ==>
      r.1 == Some(Guard(np, guard.value.direction))
      && r.0[np.y][np.x] == Empty(true)
      && r.0[guard.value.position.y][guard.value.position.x] == Empty(true)
      && forall y, x :: 0 <= y < |tiles| && 0 <= x < |tiles[y]| && Position(x, y) != np && Position(x, y) != guard.value.position ==>
           r.0[y][x] == tiles[y][x]
  {
    if guard.None? then (tiles, None)
    else
      var g := guard.value;
      if np.x >= |tiles[0]| || np.y >= |tiles| then (tiles, None)
      else
        var t1 := Visited(tiles, g.position);
        var t2 := Visited(t1, np);
        EvolvesTransitive(tiles, t1, t2);
        CharRoundTrip(g.direction);
        (t2, Some(NewGuard(np.x, np.y, ToChar(g.direction))))
  }

  /** What a simulation is at any moment: the map, the guard and the edges walked. */
  datatype SimState = SimState(tiles: seq<seq<Tile>>, guard: Option<Guard>, edges: set<Edge>)

  ghost predicate StateInv(s: SimState)
  {
    Rectangular(s.tiles) && GuardOnMap(s.tiles, s.guard)
  }

  /** `Simulation::tick` on the state `s`: the state after the tick and its status. */
  function TickSpec(s: SimState): (r: (SimState, SimulationStatus))
    requires StateInv(s)
    ensures StateInv(r.0) && Evolves(s.tiles, r.0.tiles)
    ensures s.guard.None? ==> r == (s, GuardExited)
    ensures r.1 == GuardExited ==> r.0.guard.None? && r.0.tiles == s.tiles && r.0.edges == s.edges
    ensures r.1 == GuardCycle ==> r.0 == s && s.guard.Some?
  {
    match s.guard
    case None => (s, GuardExited)
    case Some(g) =>
      var next := Ahead(s.tiles, g);
      if next.None? then (s.(guard := None), GuardExited)
      else if ColumnAt(s.tiles, next) then (s.(guard := Some(g.Turned())), InProgress)
      else
        var e := Edge(g.position, next.value);
        if e in s.edges then (s, GuardCycle)
        else
          var m := MoveGuardSpec(s.tiles, s.guard, next.value);
          (SimState(m.0, m.1, s.edges + {e}), InProgress)
  }

  /** A tick facing a column turns the guard where it stands and records nothing. */
  lemma TickAtColumn(s: SimState)
    requires StateInv(s) && s.guard.Some? && Blocked(s.tiles, s.guard.value)
    ensures TickSpec(s) == (s.(guard := Some(s.guard.value.Turned())), InProgress)
    ensures TickSpec(s).0.guard.value.position == s.guard.value.position
  {
  }

  /**
   * A tick towards an open in-grid tile moves the guard there and records the
   * edge, unless the edge was walked before: then it reports a cycle and
   * nothing moves.
   */
  lemma TickIntoOpenTile(s: SimState)
    requires StateInv(s) && s.guard.Some?
    requires var next := Ahead(s.tiles, s.guard.value); next.Some? && InGrid(s.tiles, next.value) && !Blocked(s.tiles, s.guard.value)
    ensures var g := s.guard.value;
      var np := Ahead(s.tiles, g).value;
      var e := Edge(g.position, np);
      var r := TickSpec(s);
      if e in s.edges then r == (s, GuardCycle)
      else r.1 == InProgress && r.0.guard == Some(Guard(np, g.direction)) && r.0.edges == s.edges + {e}
           && r.0.tiles[np.y][np.x] == Empty(true)
  {
  }

  /**
   * Leaving by the top or the left edge ends the run in the same tick; leaving
   * by the bottom or the right edge takes the guard off the map but still
   * reports `InProgress`, and only the next tick reports the exit.
   */
  lemma TickLeavingMap(s: SimState)
    requires StateInv(s) && s.guard.Some?
    ensures var g := s.guard.value;
      var next := Ahead(s.tiles, g);
      (next.None? ==> TickSpec(s) == (s.(guard := None), GuardExited))
      && (next.Some? && !InGrid(s.tiles, next.value) && Edge(g.position, next.value) !in s.edges ==>
            TickSpec(s) == (SimState(s.tiles, None, s.edges + {Edge(g.position, next.value)}), InProgress)
            && TickSpec(TickSpec(s).0).1 == GuardExited)
  {
  }

  /** Every edge a guard on a `width` x `height` map can walk: from a tile to at most one past the map. */
  function AllEdges(width: nat, height: nat): (es: set<Edge>)
    ensures forall e :: e in es <==> e.from.x < width && e.from.y < height && e.to.x <= width && e.to.y <= height
  {
    set x: nat, y: nat, x2: nat, y2: nat | x < width && y < height && x2 <= width && y2 <= height
      :: Edge(Position(x, y), Position(x2, y2))
  }

  /** What `run` needs to terminate: a guard that is not walled in, and edges recorded on this map. */
  ghost predicate RunPre(s: SimState)
  {
    StateInv(s)
    && (s.guard.Some? ==> !Boxed(s.tiles, s.guard.value.position))
    && s.edges <= AllEdges(|s.tiles[0]|, |s.tiles|)
  }

  function TurnsLeft(s: SimState): nat
    requires StateInv(s)
  {
    if s.guard.None? then 0 else TurnsToOpen(s.tiles, s.guard.value)
  }

  /** Having stepped forward, the guard has an open tile behind it. */
  lemma BehindIsOpen(tiles: seq<seq<Tile>>, g: Guard, np: Position)
    requires Rectangular(tiles) && InGrid(tiles, g.position) && InGrid(tiles, np)
    requires Ahead(tiles, g) == Some(np) && !tiles[g.position.y][g.position.x].IsColumn()
    ensures !Boxed(tiles, np)
  {
    var back := Guard(np, g.direction).Turned().Turned();
    assert Ahead(tiles, back) == Some(g.position);
    assert !Blocked(tiles, back);
  }

  /**
   * A tick that leaves the run in progress keeps what `run` needs, and either
   * records a new edge or brings the guard a turn closer to an open side.
   */
  lemma TickStep(s: SimState)
    requires RunPre(s) && TickSpec(s).1 == InProgress
    ensures var s' := TickSpec(s).0;
      RunPre(s') && SameShape(s.tiles, s'.tiles)
      && ((s'.edges == s.edges && TurnsLeft(s') < TurnsLeft(s))
         || AllEdges(|s.tiles[0]|, |s.tiles|) - s'.edges < AllEdges(|s.tiles[0]|, |s.tiles|) - s.edges)
  {
    var g := s.guard.value;
    var next := Ahead(s.tiles, g);
    var s' := TickSpec(s).0;
    var all := AllEdges(|s.tiles[0]|, |s.tiles|);
    if ColumnAt(s.tiles, next) {
      TurnApproachesOpen(s.tiles, g);
    } else {
      var e := Edge(g.position, next.value);
      assert e in all && e !in s.edges;
      assert e in all - s.edges && e !in all - s'.edges;
      if InGrid(s.tiles, next.value) {
        BehindIsOpen(s'.tiles, g, next.value);
      }
    }
  }

  /** `Simulation::run`: ticks until the status is no longer `InProgress`. */
  function RunSpec(s: SimState): (r: (SimState, SimulationStatus))
    requires RunPre(s)
    ensures r.1 != InProgress
    ensures StateInv(r.0) && Evolves(s.tiles, r.0.tiles)
    ensures r.1 == GuardExited <==> r.0.guard.None?
    decreases AllEdges(|s.tiles[0]|, |s.tiles|) - s.edges, TurnsLeft(s)
  {
    var t := TickSpec(s);
    if t.1 != InProgress then t
    else
      TickStep(s);
      var r := RunSpec(t.0);
      EvolvesTransitive(s.tiles, t.0.tiles, r.0.tiles);
      r
  }

  /** The state and status after at most `n` ticks, stopping at the first that does not report `InProgress`. */
  function Ticks(s: SimState, n: nat): (r: (SimState, SimulationStatus))
    requires StateInv(s)
    ensures StateInv(r.0)
    decreases n
  {
    if n == 0 then (s, InProgress)
    else
      var t := TickSpec(s);
      if t.1 != InProgress then t else Ticks(t.0, n - 1)
  }

  /**
   * A guard walled in on all four sides only turns: every tick reports
   * `InProgress`, so `run` never returns.
   */
  lemma {:induction false} WalledInSpins(s: SimState, n: nat)
    requires StateInv(s) && s.guard.Some? && Boxed(s.tiles, s.guard.value.position)
    ensures Ticks(s, n).1 == InProgress
    decreases n
  {
    if n > 0 {
      var g := s.guard.value;
      TickAtColumn(s);
      assert Boxed(s.tiles, g.Turned().position);
      WalledInSpins(TickSpec(s).0, n - 1);
    }
  }

  /** A guard on the middle tile of a plus of columns. */
  function WalledInExample(): SimState
  {
    SimState([[Empty(false), Column, Empty(false)], [Column, Empty(true), Column], [Empty(false), Column, Empty(false)]],
             Some(Guard(Position(1, 1), Up)), {})
  }

  /** Columns on the four sides of a tile walls in a guard there. */
  lemma ColumnsAround(t: seq<seq<Tile>>, p: Position)
    requires Rectangular(t) && InGrid(t, p) && 0 < p.x < |t[0]| - 1 && 0 < p.y < |t| - 1
    requires t[p.y - 1][p.x] == Column && t[p.y + 1][p.x] == Column
    requires t[p.y][p.x - 1] == Column && t[p.y][p.x + 1] == Column
    ensures Boxed(t, p)
  {
    assert Ahead(t, Guard(p, Up)) == Some(Position(p.x, p.y - 1));
    assert Ahead(t, Guard(p, Down)) == Some(Position(p.x, p.y + 1));
    assert Ahead(t, Guard(p, Left)) == Some(Position(p.x - 1, p.y));
    assert Ahead(t, Guard(p, Right)) == Some(Position(p.x + 1, p.y));
  }

  /** The guard of that map is walled in. */
  lemma WalledInExampleBoxed()
    ensures StateInv(WalledInExample()) && Boxed(WalledInExample().tiles, Position(1, 1))
  {
    var t := WalledInExample().tiles;
    assert |t| == 3 && |t[0]| == 3 && |t[1]| == 3 && |t[2]| == 3;
    assert Rectangular(t);
    assert t[1][1] == Empty(true);
    ColumnsAround(t, Position(1, 1));
  }

  /** `tick` as evidently intended: a guard that can only turn is in a cycle. */
  function TickFixed(s: SimState): (r: (SimState, SimulationStatus))
    requires StateInv(s)
    ensures StateInv(r.0)
  {
    if s.guard.Some? && Boxed(s.tiles, s.guard.value.position) then (s, GuardCycle) else TickSpec(s)
  }

  /** `run` over the intended `tick`: it ends on every map, walled-in guard or not. */
  function RunFixed(s: SimState): (r: (SimState, SimulationStatus))
    requires StateInv(s) && s.edges <= AllEdges(|s.tiles[0]|, |s.tiles|)
    ensures r.1 != InProgress
    decreases AllEdges(|s.tiles[0]|, |s.tiles|) - s.edges, TurnsLeft(s)
  {
    var t := TickFixed(s);
    if t.1 != InProgress then t
    else
      TickStep(s);
      RunFixed(t.0)
  }

  /** Where the source's `run` ends, the intended one ends the same way; a walled-in guard is a cycle. */
  lemma {:induction false} RunFixedAgrees(s: SimState)
    requires StateInv(s) && s.edges <= AllEdges(|s.tiles[0]|, |s.tiles|)
    ensures RunPre(s) ==> RunFixed(s) == RunSpec(s)
    ensures s.guard.Some? && Boxed(s.tiles, s.guard.value.position) ==> RunFixed(s) == (s, GuardCycle)
    decreases AllEdges(|s.tiles[0]|, |s.tiles|) - s.edges, TurnsLeft(s)
  {
    if RunPre(s) && TickSpec(s).1 == InProgress {
      TickStep(s);
      RunFixedAgrees(TickSpec(s).0);
    }
  }

  /** The number of ticks `run` makes from `s`, the last one included. */
  function RunTicks(s: SimState): (n: nat)
    requires RunPre(s)
    decreases AllEdges(|s.tiles[0]|, |s.tiles|) - s.edges, TurnsLeft(s)
  {
    var t := TickSpec(s);
    if t.1 != InProgress then 1
    else
      TickStep(s);
      1 + RunTicks(t.0)
  }

  /** Steps from `p` facing `d` to the last tile before the edge of the map. */
  function Distance(tiles: seq<seq<Tile>>, p: Position, d: Direction): int
    requires Rectangular(tiles)
  {
    match d
    case Up => p.y
    case Left => p.x
    case Down => |tiles| - 1 - p.y
    case Right => |tiles[0]| - 1 - p.x
  }

  /** `q` lies on the straight line from `p` to the edge of the map in direction `d`. */
  predicate OnPath(p: Position, d: Direction, q: Position)
  {
    match d
    case Up => q.x == p.x && q.y <= p.y
    case Down => q.x == p.x && q.y >= p.y
    case Left => q.y == p.y && q.x <= p.x
    case Right => q.y == p.y && q.x >= p.x
  }

  /** No column between the guard and the edge of the map in the direction it faces. */
  ghost predicate ClearAhead(tiles: seq<seq<Tile>>, g: Guard)
    requires Rectangular(tiles)
  {
    forall q :: InGrid(tiles, q) && OnPath(g.position, g.direction, q) ==> !tiles[q.y][q.x].IsColumn()
  }

  /** What a guard that may walk straight off the map needs: a clear line, and no edge walked from its tile or beyond. */
  ghost predicate StraightPre(s: SimState)
  {
    RunPre(s) && s.guard.Some? && ClearAhead(s.tiles, s.guard.value) && EdgesBehind(s.tiles, s.edges, s.guard.value)
  }

  /** Every edge in `edges` starts farther from the edge of the map than the guard stands. */
  ghost predicate EdgesBehind(tiles: seq<seq<Tile>>, edges: set<Edge>, g: Guard)
    requires Rectangular(tiles)
  {
    forall e :: e in edges ==> Distance(tiles, e.from, g.direction) > Distance(tiles, g.position, g.direction)
  }

  /** One step along the line: the rest of the line lies on it, and the step is one shorter. */
  lemma PathShrinks(tiles: seq<seq<Tile>>, g: Guard, np: Position)
    requires Rectangular(tiles) && InGrid(tiles, g.position) && Ahead(tiles, g) == Some(np)
    ensures forall q :: OnPath(g.position, g.direction, q) <==> q == g.position || OnPath(np, g.direction, q)
    ensures Distance(tiles, np, g.direction) == Distance(tiles, g.position, g.direction) - 1
  {
  }

  /** Stepping along a clear line keeps the rest of it clear. */
  lemma ClearAheadStep(a: seq<seq<Tile>>, b: seq<seq<Tile>>, g: Guard, np: Position)
    requires Rectangular(a) && Rectangular(b) && Evolves(a, b) && InGrid(a, g.position) && Ahead(a, g) == Some(np)
    requires ClearAhead(a, g)
    ensures ClearAhead(b, Guard(np, g.direction))
  {
    PathShrinks(a, g, np);
  }

  /** Stepping along the line and recording the step keeps every edge behind the guard. */
  lemma EdgesBehindStep(a: seq<seq<Tile>>, b: seq<seq<Tile>>, edges: set<Edge>, g: Guard, np: Position)
    requires Rectangular(a) && Rectangular(b) && |a| == |b| && |a[0]| == |b[0]|
    requires InGrid(a, g.position) && Ahead(a, g) == Some(np) && EdgesBehind(a, edges, g)
    ensures EdgesBehind(b, edges + {Edge(g.position, np)}, Guard(np, g.direction))
  {
    PathShrinks(a, g, np);
    forall e | e in edges + {Edge(g.position, np)}
      ensures Distance(b, e.from, g.direction) > Distance(b, np, g.direction)
    {
      assert Distance(b, e.from, g.direction) == Distance(a, e.from, g.direction);
    }
  }

  /** With the edge of the map right ahead, the run ends with nothing visited beyond the guard's tile. */
  lemma StraightEnd(s: SimState)
    requires StraightPre(s)
    requires var g := s.guard.value; var next := Ahead(s.tiles, g); next.None? || !InGrid(s.tiles, next.value)
    ensures var g := s.guard.value;
      var r := RunSpec(s);
      r.1 == GuardExited && r.0.tiles == s.tiles
      && Distance(s.tiles, g.position, g.direction) == 0
      && RunTicks(s) == if g.direction == Down || g.direction == Right then 2 else 1
  {
    var g := s.guard.value;
    var next := Ahead(s.tiles, g);
    var t := TickSpec(s);
    if next.None? {
      assert t == (s.(guard := None), GuardExited);
    } else {
      var e := Edge(g.position, next.value);
      assert e !in s.edges;
      assert t == (SimState(s.tiles, None, s.edges + {e}), InProgress);
      TickStep(s);
      assert TickSpec(t.0).1 == GuardExited;
    }
  }

  /** A tick that leaves the run in progress is the first of the ticks `run` makes. */
  lemma RunUnfold(s: SimState)
    requires RunPre(s) && TickSpec(s).1 == InProgress
    ensures RunPre(TickSpec(s).0)
    ensures RunSpec(s) == RunSpec(TickSpec(s).0) && RunTicks(s) == 1 + RunTicks(TickSpec(s).0)
  {
    TickStep(s);
  }

  /** With a free tile ahead, one tick steps there, records the edge and visits the tile. */
  lemma StraightTick(s: SimState)
    requires StraightPre(s)
    requires var g := s.guard.value; var next := Ahead(s.tiles, g); next.Some? && InGrid(s.tiles, next.value)
    ensures var g := s.guard.value;
      var np := Ahead(s.tiles, g).value;
      var t := TickSpec(s);
      t.1 == InProgress && t.0.guard == Some(Guard(np, g.direction))
      && t.0.edges == s.edges + {Edge(g.position, np)}
      && t.0.tiles == MoveGuardSpec(s.tiles, s.guard, np).0
  {
    var g := s.guard.value;
    var p, d := g.position, g.direction;
    var np := Ahead(s.tiles, g).value;
    assert Edge(p, np) !in s.edges;
    assert !s.tiles[np.y][np.x].IsColumn() by {
      assert OnPath(p, d, np);
    }
  }

  /** With a free tile ahead, one tick leaves the guard on a clear line one step shorter. */
  lemma StraightStep(s: SimState) returns (s': SimState)
    requires StraightPre(s)
    requires var g := s.guard.value; var next := Ahead(s.tiles, g); next.Some? && InGrid(s.tiles, next.value)
    ensures var g := s.guard.value;
      var np := Ahead(s.tiles, g).value;
      s' == TickSpec(s).0 && StraightPre(s')
      && s'.guard == Some(Guard(np, g.direction)) && SameShape(s'.tiles, s.tiles)
      && Distance(s'.tiles, np, g.direction) == Distance(s.tiles, g.position, g.direction) - 1
      && s'.tiles[np.y][np.x] == Empty(true) && s'.tiles[g.position.y][g.position.x] == Empty(true)
      && (forall q :: InGrid(s.tiles, q) && q != np && q != g.position ==> s'.tiles[q.y][q.x] == s.tiles[q.y][q.x])
      && RunSpec(s) == RunSpec(s') && RunTicks(s) == 1 + RunTicks(s')
  {
    var g := s.guard.value;
    var p, d := g.position, g.direction;
    var np := Ahead(s.tiles, g).value;
    StraightTick(s);
    RunUnfold(s);
    s' := TickSpec(s).0;
    ClearAheadStep(s.tiles, s'.tiles, g, np);
    EdgesBehindStep(s.tiles, s'.tiles, s.edges, g, np);
    PathShrinks(s.tiles, g, np);
  }

  /**
   * The run from `s` exits with every tile of the guard's line visited and no
   * other tile changed. Leaving by the top or the left takes one tick per
   * step and one to exit; leaving by the bottom or the right takes one more,
   * the tick that steps past the edge.
   */
  ghost predicate WalksOff(s: SimState)
    requires RunPre(s) && s.guard.Some?
  {
    var g := s.guard.value;
    var r := RunSpec(s);
    r.1 == GuardExited
    && SameShape(r.0.tiles, s.tiles)
    && (forall q :: InGrid(s.tiles, q) ==>
          r.0.tiles[q.y][q.x] == if OnPath(g.position, g.direction, q) then Empty(true) else s.tiles[q.y][q.x])
    && RunTicks(s) == Distance(s.tiles, g.position, g.direction) + (if g.direction == Down || g.direction == Right then 2 else 1)
  }

  /** At the edge of the map the guard walks off at once. */
  lemma StraightRunEnd(s: SimState)
    requires StraightPre(s)
    requires var g := s.guard.value; var next := Ahead(s.tiles, g); next.None? || !InGrid(s.tiles, next.value)
    ensures WalksOff(s)
  {
    StraightEnd(s);
    var g := s.guard.value;
    assert forall q :: InGrid(s.tiles, q) && OnPath(g.position, g.direction, q) ==> q == g.position;
  }

  /** A step along a clear line followed by a walk off the map is a walk off the map. */
  lemma StraightRunStep(s: SimState, s': SimState)
    requires RunPre(s) && s.guard.Some? && RunPre(s') && s'.guard.Some?
    requires var g := s.guard.value; var np := s'.guard.value.position;
      Ahead(s.tiles, g) == Some(np) && InGrid(s.tiles, np) && s'.guard.value.direction == g.direction
      && SameShape(s'.tiles, s.tiles)
      && s'.tiles[np.y][np.x] == Empty(true) && s'.tiles[g.position.y][g.position.x] == Empty(true)
      && (forall q :: InGrid(s.tiles, q) && q != np && q != g.position ==> s'.tiles[q.y][q.x] == s.tiles[q.y][q.x])
      && RunSpec(s) == RunSpec(s') && RunTicks(s) == 1 + RunTicks(s')
    requires WalksOff(s')
    ensures WalksOff(s)
  {
    var g := s.guard.value;
    var np := s'.guard.value.position;
    PathShrinks(s.tiles, g, np);
    StraightTiles(s.tiles, s'.tiles, RunSpec(s').0.tiles, g, np);
  }

  /** A guard with no column ahead walks straight off the map. */
  lemma {:induction false} StraightRun(s: SimState)
    requires StraightPre(s)
    ensures WalksOff(s)
    decreases Distance(s.tiles, s.guard.value.position, s.guard.value.direction)
  {
    var g := s.guard.value;
    var next := Ahead(s.tiles, g);
    if next.None? || !InGrid(s.tiles, next.value) {
      StraightRunEnd(s);
    } else {
      var s' := StraightStep(s);
      StraightRun(s');
      StraightRunStep(s, s');
    }
  }

  /** A fresh run whose guard has no column ahead walks straight off the map. */
  lemma StraightFromStart(s: SimState)
    requires StateInv(s) && s.guard.Some? && s.edges == {} && ClearAhead(s.tiles, s.guard.value)
    ensures RunPre(s) && WalksOff(s)
  {
    var g := s.guard.value;
    var next := Ahead(s.tiles, g);
    assert !Blocked(s.tiles, g) by {
      if next.Some? && InGrid(s.tiles, next.value) {
        assert OnPath(g.position, g.direction, next.value);
      }
    }
    StraightRun(s);
  }

  /**
   * The tiles after a step to `np` and a walk down the rest of the line are
   * the tiles before the step with the whole line visited.
   */
  lemma StraightTiles(a: seq<seq<Tile>>, b: seq<seq<Tile>>, c: seq<seq<Tile>>, g: Guard, np: Position)
    requires Rectangular(a) && SameShape(b, a) && SameShape(c, b)
    requires InGrid(a, g.position) && Ahead(a, g) == Some(np) && InGrid(a, np)
    requires b[np.y][np.x] == Empty(true) && b[g.position.y][g.position.x] == Empty(true)
    requires forall q :: InGrid(a, q) && q != np && q != g.position ==> b[q.y][q.x] == a[q.y][q.x]
    requires forall q :: InGrid(a, q) ==> c[q.y][q.x] == if OnPath(np, g.direction, q) then Empty(true) else b[q.y][q.x]
    ensures forall q :: InGrid(a, q) ==> c[q.y][q.x] == if OnPath(g.position, g.direction, q) then Empty(true) else a[q.y][q.x]
  {
    PathShrinks(a, g, np);
  }

  /** Visited tiles in a row: `filter(is_visited).count()`. */
  function RowVisits(row: seq<Tile>): nat
  {
    if row == [] then 0 else (if row[0].IsVisited() then 1 else 0) + RowVisits(row[1..])
  }

  /** `LabMap::get_visit_count`: visited tiles over all rows. */
  function CountVisited(tiles: seq<seq<Tile>>): nat
  {
    if tiles == [] then 0 else RowVisits(tiles[0]) + CountVisited(tiles[1..])
  }

  lemma {:induction false} RowVisitsMonotone(a: seq<Tile>, b: seq<Tile>)
    requires |a| == |b| && forall x :: 0 <= x < |a| && a[x].IsVisited() ==> b[x].IsVisited()
    ensures RowVisits(a) <= RowVisits(b)
  {
    if a != [] {
      RowVisitsMonotone(a[1..], b[1..]);
    }
  }

  /** The visit count never goes down while the tiles evolve. */
  lemma {:induction false} CountVisitedMonotone(a: seq<seq<Tile>>, b: seq<seq<Tile>>)
    requires Evolves(a, b)
    ensures CountVisited(a) <= CountVisited(b)
  {
    if a != [] {
      RowVisitsMonotone(a[0], b[0]);
      assert Evolves(a[1..], b[1..]) by {
        forall y, x | 0 <= y < |a[1..]| && 0 <= x < |a[1..][y]|
          ensures (b[1..][y][x].IsColumn() <==> a[1..][y][x].IsColumn())
          ensures a[1..][y][x].IsVisited() ==> b[1..][y][x].IsVisited()
        {
          assert a[1..][y] == a[y + 1] && b[1..][y] == b[y + 1];
        }
      }
      CountVisitedMonotone(a[1..], b[1..]);
    }
  }

  lemma {:induction false} RowVisitsPositive(row: seq<Tile>, x: nat)
    requires x < |row| && row[x].IsVisited()
    ensures RowVisits(row) >= 1
  {
    if x > 0 {
      RowVisitsPositive(row[1..], x - 1);
    }
  }

  /** A map with a visited tile has a positive visit count. */
  lemma {:induction false} CountVisitedPositive(tiles: seq<seq<Tile>>, p: Position)
    requires p.y < |tiles| && p.x < |tiles[p.y]| && tiles[p.y][p.x].IsVisited()
    ensures CountVisited(tiles) >= 1
  {
    if p.y == 0 {
      RowVisitsPositive(tiles[0], p.x);
    } else {
      CountVisitedPositive(tiles[1..], Position(p.x, p.y - 1));
    }
  }

  /** The positions of the visited tiles of rows `y0` onwards. */
  ghost function VisitedFrom(tiles: seq<seq<Tile>>, y0: nat): set<Position>
  {
    set y: nat, x: nat | y0 <= y < |tiles| && x < |tiles[y]| && tiles[y][x].IsVisited() :: Position(x, y)
  }

  /** The positions of the visited tiles of `row`, taken as row `y`, from column `x0` on. */
  ghost function RowVisitedFrom(row: seq<Tile>, y: nat, x0: nat): set<Position>
  {
    set x: nat | x0 <= x < |row| && row[x].IsVisited() :: Position(x, y)
  }

  lemma {:induction false} RowVisitedFromSize(row: seq<Tile>, y: nat, x0: nat)
    requires x0 <= |row|
    ensures |RowVisitedFrom(row, y, x0)| == RowVisits(row[x0..])
    decreases |row| - x0
  {
    if x0 == |row| {
      assert RowVisitedFrom(row, y, x0) == {};
      assert row[x0..] == [];
    } else {
      RowVisitedFromSize(row, y, x0 + 1);
      assert row[x0..][1..] == row[x0 + 1..];
      var rest := RowVisitedFrom(row, y, x0 + 1);
      if row[x0].IsVisited() {
        assert RowVisitedFrom(row, y, x0) == rest + {Position(x0, y)};
        assert Position(x0, y) !in rest;
      } else {
        assert RowVisitedFrom(row, y, x0) == rest;
      }
    }
  }

  /** `get_visit_count` counts the visited positions: each visited tile once. */
  lemma {:induction false} VisitedFromSize(tiles: seq<seq<Tile>>, y0: nat)
    requires y0 <= |tiles|
    ensures |VisitedFrom(tiles, y0)| == CountVisited(tiles[y0..])
    decreases |tiles| - y0
  {
    if y0 == |tiles| {
      assert VisitedFrom(tiles, y0) == {};
      assert tiles[y0..] == [];
    } else {
      VisitedFromSize(tiles, y0 + 1);
      RowVisitedFromSize(tiles[y0], y0, 0);
      assert tiles[y0..][1..] == tiles[y0 + 1..];
      assert tiles[y0][0..] == tiles[y0];
      var row, rest := RowVisitedFrom(tiles[y0], y0, 0), VisitedFrom(tiles, y0 + 1);
      assert VisitedFrom(tiles, y0) == row + rest;
      forall q | q in row
        ensures q !in rest
      {
      }
    }
  }

  lemma SubsetSize<T>(a: set<T>, b: set<T>)
    requires a <= b
    ensures |a| <= |b|
  {
    assert b == a + (b - a);
  }

  /** `load_map_data`: the input's lines, trailing whitespace removed. */
  function LoadMapData(input: string): (rows: seq<seq<char>>)
    ensures |rows| == |Lines(input)|
    ensures forall i :: 0 <= i < |rows| ==> rows[i] == TrimEnd(Lines(input)[i])
  {
    var lines := Lines(input);
    seq(|lines|, i requires 0 <= i < |lines| => TrimEnd(lines[i]))
  }

  predicate AllMapChars(rows: seq<seq<char>>)
  {
    forall y, x :: 0 <= y < |rows| && 0 <= x < |rows[y]| ==> IsMapChar(rows[y][x])
  }

  /**
   * What `LabMap::new` demands: at least one line (the panic on `result[0]`),
   * lines of one length (the `assert_eq`) and only map characters (`Tile::new`).
   */
  predicate Loadable(input: string)
  {
    Rectangular(LoadMapData(input)) && AllMapChars(LoadMapData(input))
  }

  /** `make_tiles`: one tile per character. */
  function MakeTilesSpec(rows: seq<seq<char>>): (tiles: seq<seq<Tile>>)
    requires AllMapChars(rows)
    ensures SameShape(rows, tiles)
    ensures forall y, x :: 0 <= y < |rows| && 0 <= x < |rows[y]| ==>
      (tiles[y][x].IsColumn() <==> rows[y][x] == '#') && (tiles[y][x].IsVisited() <==> IsGuardChar(rows[y][x]))
  {
    seq(|rows|, y requires 0 <= y < |rows| =>
      seq(|rows[y]|, x requires 0 <= x < |rows[y]| => NewTile(rows[y][x])))
  }

  /** Index of the first guard character in `row`, or `|row|`. */
  function GuardIndex(row: seq<char>): (i: nat)
    ensures i <= |row| && (i < |row| ==> IsGuardChar(row[i]))
    ensures forall j :: 0 <= j < i ==> !IsGuardChar(row[j])
  {
    if row == [] then 0 else if IsGuardChar(row[0]) then 0 else 1 + GuardIndex(row[1..])
  }

  /** `(y', x')` comes strictly before `(y, x)` in row-major order. */
  predicate Before(y': nat, x': nat, y: nat, x: nat)
  {
    y' < y || (y' == y && x' < x)
  }

  /** The first guard character among rows `from..`, in row-major order. */
  function FirstGuardFrom(rows: seq<seq<char>>, from: nat): (g: Option<Guard>)
    ensures g.None? ==> forall y, x :: from <= y < |rows| && 0 <= x < |rows[y]| ==> !IsGuardChar(rows[y][x])
    ensures g.Some? ==>
      var p := g.value.position;
      from <= p.y < |rows| && p.x < |rows[p.y]| && IsGuardChar(rows[p.y][p.x])
      && ToChar(g.value.direction) == rows[p.y][p.x]
      && forall y, x :: from <= y < |rows| && 0 <= x < |rows[y]| && Before(y, x, p.y, p.x) ==> !IsGuardChar(rows[y][x])
    decreases |rows| - from
  {
    if from >= |rows| then None
    else
      var i := GuardIndex(rows[from]);
      if i < |rows[from]| then Some(NewGuard(i, from, rows[from][i]))
      else FirstGuardFrom(rows, from + 1)
  }

  /** `find_guard`: the guard at the first guard character in row-major order, if any. */
  function FindGuardSpec(rows: seq<seq<char>>): (g: Option<Guard>)
    ensures g.None? ==> forall y, x :: 0 <= y < |rows| && 0 <= x < |rows[y]| ==> !IsGuardChar(rows[y][x])
    ensures g.Some? ==>
      var p := g.value.position;
      p.y < |rows| && p.x < |rows[p.y]| && IsGuardChar(rows[p.y][p.x])
      && ToChar(g.value.direction) == rows[p.y][p.x]
      && forall y, x :: 0 <= y < |rows| && 0 <= x < |rows[y]| && Before(y, x, p.y, p.x) ==> !IsGuardChar(rows[y][x])
  {
    FirstGuardFrom(rows, 0)
  }

  /** What `Simulation::new(LabMap::new(input))` starts from, on the input's rows. */
  function FromRows(rows: seq<seq<char>>): (s: SimState)
    requires Rectangular(rows) && AllMapChars(rows)
    ensures StateInv(s) && s.edges == {}
  {
    SimState(MakeTilesSpec(rows), FindGuardSpec(rows), {})
  }

  /** The simulation state `Simulation::new(LabMap::new(input))` starts from. */
  function Initial(input: string): (s: SimState)
    requires Loadable(input)
    ensures StateInv(s) && s.edges == {}
  {
    FromRows(LoadMapData(input))
  }

  /** Number of guard characters in a row. */
  function RowGuards(row: seq<char>): nat
  {
    if row == [] then 0 else (if IsGuardChar(row[0]) then 1 else 0) + RowGuards(row[1..])
  }

  /** Number of guard characters in the rows. */
  function GuardChars(rows: seq<seq<char>>): nat
  {
    if rows == [] then 0 else RowGuards(rows[0]) + GuardChars(rows[1..])
  }

  lemma {:induction false} RowVisitsOfRow(row: seq<char>)
    requires forall x :: 0 <= x < |row| ==> IsMapChar(row[x])
    ensures RowVisits(seq(|row|, x requires 0 <= x < |row| => NewTile(row[x]))) == RowGuards(row)
  {
    var tiles := seq(|row|, x requires 0 <= x < |row| => NewTile(row[x]));
    if row != [] {
      assert tiles[1..] == seq(|row[1..]|, x requires 0 <= x < |row[1..]| => NewTile(row[1..][x]));
      RowVisitsOfRow(row[1..]);
    }
  }

  /** After loading, the visited tiles are exactly the guard characters of the input. */
  lemma {:induction false} LoadedVisitCount(rows: seq<seq<char>>)
    requires AllMapChars(rows)
    ensures CountVisited(MakeTilesSpec(rows)) == GuardChars(rows)
  {
    if rows != [] {
      var tiles := MakeTilesSpec(rows);
      assert tiles[0] == seq(|rows[0]|, x requires 0 <= x < |rows[0]| => NewTile(rows[0][x]));
      RowVisitsOfRow(rows[0]);
      assert tiles[1..] == MakeTilesSpec(rows[1..]);
      LoadedVisitCount(rows[1..]);
    }
  }

  /**
   * The map and the guard. `tiles` changes through `visit` and `add_column`;
   * `guard` is taken and replaced by `move_guard` and turned by `tick`.
   */
  class LabMap {
    var tiles: seq<seq<Tile>>
    var guard: Option<Guard>

    /** `LabMap::new`. */
    constructor (input: string)
      requires Loadable(input)
      ensures tiles == Initial(input).tiles && guard == Initial(input).guard
    {
      var rows := LoadMapData(input);
      var g := FindGuard(rows);
      var t := MakeTiles(rows);
      tiles := t;
      guard := g;
    }

    /** `#[derive(Clone)]`: a new map with the same tiles and guard. */
    method Clone() returns (m: LabMap)
      ensures fresh(m) && m.tiles == tiles && m.guard == guard
    {
      m := new LabMap.FromParts(tiles, guard);
    }

    constructor FromParts(tiles: seq<seq<Tile>>, guard: Option<Guard>)
      ensures this.tiles == tiles && this.guard == guard
    {
      this.tiles := tiles;
      this.guard := guard;
    }

    /** `find_guard`: scans the rows in order and stops at the first guard character. */
    static method FindGuard(rows: seq<seq<char>>) returns (g: Option<Guard>)
      ensures g == FindGuardSpec(rows)
    {
      for y := 0 to |rows|
        invariant FirstGuardFrom(rows, 0) == FirstGuardFrom(rows, y)
      {
        for x := 0 to |rows[y]|
          invariant forall j :: 0 <= j < x ==> !IsGuardChar(rows[y][j])
        {
          if IsGuardChar(rows[y][x]) {
            assert GuardIndex(rows[y]) == x by {
              GuardIndexIsFirst(rows[y], x);
            }
            return Some(NewGuard(x, y, rows[y][x]));
          }
        }
        assert GuardIndex(rows[y]) == |rows[y]| by {
          GuardIndexIsFirst(rows[y], GuardIndex(rows[y]));
        }
      }
      return None;
    }

    /** `make_tiles`: builds the tile rows one character at a time. */
    static method MakeTiles(rows: seq<seq<char>>) returns (tiles: seq<seq<Tile>>)
      requires AllMapChars(rows)
      ensures tiles == MakeTilesSpec(rows)
    {
      tiles := [];
      for y := 0 to |rows|
        invariant |tiles| == y
        invariant forall i :: 0 <= i < y ==> tiles[i] == MakeTilesSpec(rows)[i]
      {
        var row: seq<Tile> := [];
        for x := 0 to |rows[y]|
          invariant row == MakeTilesSpec(rows)[y][..x]
        {
          row := row + [NewTile(rows[y][x])];
        }
        tiles := tiles + [row];
      }
    }

    /** `LabMap::add_column`. */
    method AddColumn(p: Position)
      requires p.y < |tiles| && p.x < |tiles[p.y]|
      modifies this
      ensures tiles == ColumnAdded(old(tiles), p) && guard == old(guard)
    {
      tiles := tiles[p.y := tiles[p.y][p.x := Column]];
    }

    /** `LabMap::visit`: visiting a column panics. */
    method Visit(p: Position)
      requires p.y < |tiles| && p.x < |tiles[p.y]| && !tiles[p.y][p.x].IsColumn()
      modifies this
      ensures tiles == Visited(old(tiles), p) && guard == old(guard)
    {
      tiles := tiles[p.y := tiles[p.y][p.x := Empty(true)]];
    }

    /** `LabMap::move_guard`: the guard is taken out, then put back at `np` if `np` is on the map. */
    method MoveGuard(np: Position)
      requires Rectangular(tiles)
      requires guard.Some? ==> UnitStep(guard.value.position, np)
      requires guard.Some? ==> var p := guard.value.position; InGrid(tiles, p) && !tiles[p.y][p.x].IsColumn()
      requires guard.Some? && InGrid(tiles, np) ==> !tiles[np.y][np.x].IsColumn()
      modifies this
      ensures (tiles, guard) == MoveGuardSpec(old(tiles), old(guard), np)
    {
      if guard.None? {
        return;
      }
      var g := guard.value;
      guard := None;
      if np.x >= |tiles[0]| || np.y >= |tiles| {
        guard := None;
        return;
      }
      Visit(g.position);
      Visit(np);
      guard := Some(NewGuard(np.x, np.y, ToChar(g.direction)));
    }

    /** `LabMap::is_column`. */
    function IsColumn(p: Option<Position>): (r: bool)
      reads this
      requires Rectangular(tiles)
      ensures r == ColumnAt(tiles, p)
    {
      ColumnAt(tiles, p)
    }

    /** `LabMap::get_visit_count`. */
    function GetVisitCount(): (n: nat)
      reads this
      ensures n == CountVisited(tiles)
    {
      CountVisited(tiles)
    }
  }

  lemma GuardIndexIsFirst(row: seq<char>, x: nat)
    requires x <= |row| && (x < |row| ==> IsGuardChar(row[x]))
    requires forall j :: 0 <= j < x ==> !IsGuardChar(row[j])
    ensures GuardIndex(row) == x
  {
  }

  /** A simulation: a map plus the set of edges the guard has walked. */
  class Simulation {
    const labMap: LabMap
    var visitedEdges: set<Edge>

    /** The abstract state the pure specification speaks about. */
    function State(): SimState
      reads this, labMap
    {
      SimState(labMap.tiles, labMap.guard, visitedEdges)
    }

    ghost predicate Valid()
      reads this, labMap
    {
      StateInv(State())
    }

    /** `Simulation::new`: no edge walked yet. */
    constructor (m: LabMap)
      ensures labMap == m && visitedEdges == {}
    {
      labMap := m;
      visitedEdges := {};
    }

    /** `Simulation::tick`. */
    method Tick() returns (status: SimulationStatus)
      requires Valid()
      modifies this, labMap
      ensures Valid()
      ensures (State(), status) == TickSpec(old(State()))
    {
      if labMap.guard.None? {
        return GuardExited;
      }
      var g := labMap.guard.value;
      var next := Ahead(labMap.tiles, g);
      if next.None? {
        labMap.guard := None;
        return GuardExited;
      }
      var np := next.value;
      var column := labMap.IsColumn(Some(np));
      if column {
        labMap.guard := Some(g.Turned());
      } else {
        var e := Edge(g.position, np);
        if e in visitedEdges {
          return GuardCycle;
        } else {
          visitedEdges := visitedEdges + {e};
        }
        labMap.MoveGuard(np);
      }
      return InProgress;
    }

    /** `Simulation::run`: ticks until the guard exits or walks an edge twice. */
    method Run() returns (status: SimulationStatus)
      requires Valid() && RunPre(State())
      modifies this, labMap
      ensures (State(), status) == RunSpec(old(State()))
    {
      ghost var width, height := |labMap.tiles[0]|, |labMap.tiles|;
      while true
        invariant Valid() && RunPre(State())
        invariant |labMap.tiles| == height && |labMap.tiles[0]| == width
        invariant RunSpec(State()) == RunSpec(old(State()))
        decreases AllEdges(width, height) - visitedEdges, TurnsLeft(State())
      {
        ghost var before := State();
        status := Tick();
        if status != InProgress {
          return;
        }
        TickStep(before);
      }
    }
  }

  /**
   * `part_one`: the number of tiles visited once the run ends, `None` when
   * that is zero. The `assert!` demands a guard. The count is never zero: the
   * start tile is visited when the map is loaded and stays visited.
   */
  method PartOne(input: string) returns (r: Option<nat>)
    requires Loadable(input) && Initial(input).guard.Some?
    requires RunPre(Initial(input))
    ensures r == Some(CountVisited(RunSpec(Initial(input)).0.tiles))
    ensures r.Some? && r.value >= 1
  {
    var labMap := new LabMap(input);
    var simulation := new Simulation(labMap);
    var _ := simulation.Run();
    var visitCount := simulation.labMap.GetVisitCount();
    var s0 := Initial(input);
    var p := s0.guard.value.position;
    CountVisitedPositive(s0.tiles, p);
    CountVisitedMonotone(s0.tiles, RunSpec(s0).0.tiles);
    if visitCount > 0 {
      r := Some(visitCount);
    } else {
      r := None;
    }
  }

  /** The start state with one extra column at `p`. */
  function WithColumn(s: SimState, p: Position): SimState
    requires p.y < |s.tiles| && p.x < |s.tiles[p.y]|
  {
    s.(tiles := ColumnAdded(s.tiles, p))
  }

  /** The guard at `p` has exactly one open side, an in-grid empty tile in direction `d`. */
  predicate OpenOnlyTowards(tiles: seq<seq<Tile>>, p: Position, d: Direction)
    requires Rectangular(tiles) && InGrid(tiles, p)
  {
    var g := Guard(p, d);
    var next := Ahead(tiles, g);
    next.Some? && InGrid(tiles, next.value) && !Blocked(tiles, g)
    && Blocked(tiles, g.Turned()) && Blocked(tiles, g.Turned().Turned()) && Blocked(tiles, g.Turned().Turned().Turned())
  }

  /**
   * A start that one added column would wall in. `part_two` tries that column
   * (the guard's first step visits it) and its run then never returns.
   */
  predicate Trappable(tiles: seq<seq<Tile>>, p: Position)
    requires Rectangular(tiles) && InGrid(tiles, p)
  {
    OpenOnlyTowards(tiles, p, Up) || OpenOnlyTowards(tiles, p, Right)
    || OpenOnlyTowards(tiles, p, Down) || OpenOnlyTowards(tiles, p, Left)
  }

  /** A column away from the tile in front of the guard does not block it. */
  lemma BlockedAfterAddColumn(tiles: seq<seq<Tile>>, g: Guard, q: Position)
    requires Rectangular(tiles) && InGrid(tiles, g.position) && InGrid(tiles, q)
    requires Ahead(tiles, g) != Some(q)
    ensures Rectangular(ColumnAdded(tiles, q)) && InGrid(ColumnAdded(tiles, q), g.position)
    ensures Blocked(ColumnAdded(tiles, q), g) == Blocked(tiles, g)
  {
    var t := ColumnAdded(tiles, q);
    assert Ahead(t, g) == Ahead(tiles, g);
  }

  /** Four different headings face four different tiles. */
  lemma AheadInjective(tiles: seq<seq<Tile>>, p: Position, d: Direction, d': Direction)
    requires Rectangular(tiles) && InGrid(tiles, p) && d != d'
    ensures Ahead(tiles, Guard(p, d)).Some? ==> Ahead(tiles, Guard(p, d')) != Ahead(tiles, Guard(p, d))
  {
  }

  /** A column at `q`, away from the start, cannot wall in a start that is neither walled in nor trappable. */
  lemma AddColumnKeepsRunPre(s: SimState, q: Position)
    requires RunPre(s) && s.guard.Some? && s.edges == {}
    requires InGrid(s.tiles, q) && q != s.guard.value.position
    requires !Trappable(s.tiles, s.guard.value.position)
    ensures RunPre(WithColumn(s, q))
  {
    var p := s.guard.value.position;
    var t := ColumnAdded(s.tiles, q);
    var s' := WithColumn(s, q);
    assert Rectangular(t);
    assert GuardOnMap(t, s'.guard);
    var open := OpenSideAvoiding(s.tiles, p, q);
    BlockedAfterAddColumn(s.tiles, Guard(p, open), q);
    assert !Blocked(t, Guard(p, open));
  }

  /** A start neither walled in nor trappable has an open side whose next tile is not `q`. */
  lemma OpenSideAvoiding(tiles: seq<seq<Tile>>, p: Position, q: Position) returns (open: Direction)
    requires Rectangular(tiles) && InGrid(tiles, p) && InGrid(tiles, q) && q != p
    requires !Boxed(tiles, p) && !Trappable(tiles, p)
    ensures !Blocked(tiles, Guard(p, open)) && Ahead(tiles, Guard(p, open)) != Some(q)
  {
    var d0 :| d0 in {Up, Right, Down, Left} && !Blocked(tiles, Guard(p, d0));
    open := d0;
    if Ahead(tiles, Guard(p, d0)) == Some(q) {
      assert !OpenOnlyTowards(tiles, p, d0);
      FourTurns(d0);
      var d1 :| d1 in {Turn(d0), Turn(Turn(d0)), Turn(Turn(Turn(d0)))} && !Blocked(tiles, Guard(p, d1));
      AheadInjective(tiles, p, d0, d1);
      open := d1;
    }
  }

  /** An obstruction at `p` makes the guard walk an edge twice. */
  ghost predicate LoopsWithColumn(s: SimState, p: Position)
  {
    StateInv(s) && InGrid(s.tiles, p) && RunPre(WithColumn(s, p)) && RunSpec(WithColumn(s, p)).1 == GuardCycle
  }

  /** Whether `part_two` counts the tile at `(x, y)`. */
  ghost predicate Counted(s0: SimState, final: seq<seq<Tile>>, x: nat, y: nat)
    requires s0.guard.Some?
  {
    y < |final| && x < |final[y]|
    && Position(x, y) != s0.guard.value.position
    && !final[y][x].IsColumn() && final[y][x].IsVisited()
    && LoopsWithColumn(s0, Position(x, y))
  }

  /** The tiles `part_two` counts, those scanned before row `y` and column `x`. */
  ghost function CountedBefore(s0: SimState, final: seq<seq<Tile>>, y: nat, x: nat): set<Position>
    requires s0.guard.Some?
  {
    set y': nat, x': nat | y' < |final| && x' < |final[y']| && Before(y', x', y, x) && Counted(s0, final, x', y')
      :: Position(x', y')
  }

  /**
   * Every tile `part_two` counts is visited and is not the start, which is
   * visited too: part two is smaller than the visit count of part one.
   */
  lemma CountedBelowVisited(s0: SimState, final: seq<seq<Tile>>)
    requires s0.guard.Some?
    requires var p := s0.guard.value.position; p.y < |final| && p.x < |final[p.y]| && final[p.y][p.x].IsVisited()
    ensures |CountedBefore(s0, final, |final|, 0)| < CountVisited(final)
  {
    var p := s0.guard.value.position;
    var counted, visited := CountedBefore(s0, final, |final|, 0), VisitedFrom(final, 0);
    VisitedFromSize(final, 0);
    assert final[0..] == final;
    assert counted <= visited - {p};
    assert p in visited;
    SubsetSize(counted, visited - {p});
  }

  /**
   * `part_two`: among the tiles the original run visits, other than the start,
   * the number whose turning into a column makes the guard cycle. The
   * `assert_eq!` demands that the original run exits.
   */
  method PartTwo(input: string) returns (r: Option<nat>)
    requires Loadable(input) && Initial(input).guard.Some?
    requires RunPre(Initial(input)) && RunSpec(Initial(input)).1 == GuardExited
    requires !Trappable(Initial(input).tiles, Initial(input).guard.value.position)
    ensures var final := RunSpec(Initial(input)).0.tiles;
      r == Some(|CountedBefore(Initial(input), final, |final|, 0)|) && r.value < CountVisited(final)
  {
    var originalLabMap := new LabMap(input);
    var firstRunMap := originalLabMap.Clone();
    var originalSimulation := new Simulation(firstRunMap);
    var _ := originalSimulation.Run();
    var count := CountCycles(originalLabMap, originalSimulation.labMap.tiles);
    r := Some(count);
    CountedBelowVisited(Initial(input), originalSimulation.labMap.tiles);
  }

  /**
   * The nested loops of `part_two` over the tiles `final` of the original
   * run: every visited tile other than the start is tried as a column.
   */
  method CountCycles(original: LabMap, final: seq<seq<Tile>>) returns (count: nat)
    requires var s0 := SimState(original.tiles, original.guard, {});
      RunPre(s0) && s0.guard.Some? && !Trappable(s0.tiles, s0.guard.value.position)
      && SameShape(s0.tiles, final)
    ensures count == |CountedBefore(SimState(original.tiles, original.guard, {}), final, |final|, 0)|
  {
    ghost var s0 := SimState(original.tiles, original.guard, {});
    count := 0;
    var guardPosition := original.guard.value.position;
    for y := 0 to |final|
      invariant count == |CountedBefore(s0, final, y, 0)|
    {
      for x := 0 to |final[y]|
        invariant count == |CountedBefore(s0, final, y, x)|
      {
        var counted := TryTile(original, final, guardPosition, x, y);
        NextCounted(s0, final, y, x, counted);
        if counted {
          count := count + 1;
        }
      }
      RowDone(s0, final, y);
    }
  }

  /**
   * One step of the nested loops of `part_two`: the start is skipped, and a
   * visited tile that is not a column is tried as a column.
   */
  method TryTile(original: LabMap, final: seq<seq<Tile>>, guardPosition: Position, x: nat, y: nat)
    returns (counted: bool)
    requires var s0 := SimState(original.tiles, original.guard, {});
      RunPre(s0) && s0.guard.Some? && !Trappable(s0.tiles, s0.guard.value.position)
      && SameShape(s0.tiles, final) && guardPosition == s0.guard.value.position
    requires y < |final| && x < |final[y]|
    ensures counted == Counted(SimState(original.tiles, original.guard, {}), final, x, y)
  {
    ghost var s0 := SimState(original.tiles, original.guard, {});
    var tile: Tile := final[y][x];
    var currPosition := Position(x, y);
    if guardPosition == currPosition {
      return false;
    }
    if !tile.IsColumn() && tile.IsVisited() {
      assert InGrid(s0.tiles, currPosition);
      counted := CycleWithColumn(original, currPosition);
    } else {
      counted := false;
    }
  }

  /**
   * The body of the search in `part_two`: a clone of the original map with a
   * column at `p`, run to the end; true when the run reports a cycle.
   */
  method CycleWithColumn(original: LabMap, p: Position) returns (cycle: bool)
    requires var s0 := SimState(original.tiles, original.guard, {});
      RunPre(s0) && s0.guard.Some? && InGrid(s0.tiles, p) && p != s0.guard.value.position
      && !Trappable(s0.tiles, s0.guard.value.position)
    ensures cycle == LoopsWithColumn(SimState(original.tiles, original.guard, {}), p)
  {
    ghost var s0 := SimState(original.tiles, original.guard, {});
    var newLabMap := original.Clone();
    newLabMap.AddColumn(p);
    var newSimulation := new Simulation(newLabMap);
    AddColumnKeepsRunPre(s0, p);
    var status := newSimulation.Run();
    cycle := status == GuardCycle;
  }

  /** Scanning `(x, y)` adds it to the counted tiles exactly when it is counted. */
  lemma NextCounted(s0: SimState, final: seq<seq<Tile>>, y: nat, x: nat, counted: bool)
    requires s0.guard.Some? && y < |final| && x < |final[y]|
    requires counted == Counted(s0, final, x, y)
    ensures |CountedBefore(s0, final, y, x + 1)| == |CountedBefore(s0, final, y, x)| + (if counted then 1 else 0)
  {
    var g := CountedGrid(s0, final);
    CountedMarked(s0, final, g, y, x);
    CountedMarked(s0, final, g, y, x + 1);
    NextMarked(g, y, x);
  }

  /** For every tile of `final`, whether `part_two` counts it. */
  ghost function CountedGrid(s0: SimState, final: seq<seq<Tile>>): (g: seq<seq<bool>>)
    requires s0.guard.Some?
    ensures SameShape(g, final)
    ensures forall y, x :: 0 <= y < |final| && 0 <= x < |final[y]| ==> g[y][x] == Counted(s0, final, x, y)
  {
    seq(|final|, y requires 0 <= y < |final| => seq(|final[y]|, x requires 0 <= x < |final[y]| => Counted(s0, final, x, y)))
  }

  /** The marked tiles of `g` scanned before row `y` and column `x`, in row-major order. */
  function MarkedBefore(g: seq<seq<bool>>, y: nat, x: nat): set<Position>
  {
    set y': nat, x': nat | y' < |g| && x' < |g[y']| && Before(y', x', y, x) && g[y'][x'] :: Position(x', y')
  }

  lemma CountedMarked(s0: SimState, final: seq<seq<Tile>>, g: seq<seq<bool>>, y: nat, x: nat)
    requires s0.guard.Some? && g == CountedGrid(s0, final)
    ensures CountedBefore(s0, final, y, x) == MarkedBefore(g, y, x)
  {
  }

  /** Scanning `(x, y)` adds it to the marked tiles exactly when it is marked. */
  lemma NextMarked(g: seq<seq<bool>>, y: nat, x: nat)
    requires y < |g| && x < |g[y]|
    ensures |MarkedBefore(g, y, x + 1)| == |MarkedBefore(g, y, x)| + (if g[y][x] then 1 else 0)
  {
    var a, b := MarkedBefore(g, y, x), MarkedBefore(g, y, x + 1);
    if g[y][x] {
      assert b == a + {Position(x, y)};
    } else {
      assert b == a;
    }
  }

  /** The end of row `y` is the start of row `y + 1`. */
  lemma RowDone(s0: SimState, final: seq<seq<Tile>>, y: nat)
    requires s0.guard.Some? && y < |final|
    ensures CountedBefore(s0, final, y, |final[y]|) == CountedBefore(s0, final, y + 1, 0)
  {
  }
}
