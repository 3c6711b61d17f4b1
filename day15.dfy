/**
 * Day 15: a warehouse map of walls, boxes and empty tiles with one robot,
 * followed, after a blank line, by the robot's list of moves. Only the
 * loading of both sections and the rendering of the map back to text are
 * part of the program.
 */
module Day15 {
  import opened Wrappers
  import opened Text

  datatype Position = Position(x: nat, y: nat)

  datatype Tile = Wall | Empty | Box

  datatype Warehouse = Warehouse(width: nat, height: nat, tiles: seq<seq<Tile>>, robotPosition: Position)

  datatype Move = Up | Down | Left | Right

  datatype Simulation = Simulation(warehouse: Warehouse, moves: seq<Move>)

  // ---------------------------------------------------------------------------
  // Reading the map
  // ---------------------------------------------------------------------------

  /** The tile a map character stands for: the robot stands on an empty tile. */
  function TileOf(c: char): Option<Tile>
  {
    match c
    case '#' => Some(Wall)
    case 'O' => Some(Box)
    case '.' => Some(Empty)
    case '@' => Some(Empty)
    case _ => None
  }

  predicate IsMapChar(c: char)
  {
    c == '#' || c == 'O' || c == '.' || c == '@'
  }

  /**
   * The tiles of one line, in order: a character that stands for no tile
   * adds none. When every character is a map character the row has one
   * tile per character.
   */
  function RowOf(line: string): (row: seq<Tile>)
    ensures |row| <= |line|
  {
    if line == [] then []
    else
      var tile := TileOf(line[|line| - 1]);
      RowOf(line[..|line| - 1]) + if tile.Some? then [tile.value] else []
  }

  lemma {:induction false} RowOfMapChars(line: string)
    requires forall i :: 0 <= i < |line| ==> IsMapChar(line[i])
    ensures |RowOf(line)| == |line| && forall i :: 0 <= i < |line| ==> TileOf(line[i]) == Some(RowOf(line)[i])
  {
    if line != [] {
      RowOfMapChars(line[..|line| - 1]);
    }
  }

  /** Reading two pieces of a line one after the other reads the whole line. */
  lemma {:induction false} RowOfAppend(a: string, b: string)
    ensures RowOf(a + b) == RowOf(a) + RowOf(b)
    decreases |b|
  {
    if b != [] {
      var b' := b[..|b| - 1];
      assert (a + b)[..|a + b| - 1] == a + b';
      RowOfAppend(a, b');
      var tile := TileOf(b[|b| - 1]);
      assert RowOf(b) == RowOf(b') + if tile.Some? then [tile.value] else [];
    } else {
      assert a + b == a;
    }
  }

  /** A character that stands for no tile adds nothing to its row. */
  lemma RowOfUnknown(a: string, c: char, b: string)
    requires TileOf(c).None?
    ensures RowOf(a + [c] + b) == RowOf(a + b)
  {
    RowOfAppend(a + [c], b);
    RowOfAppend(a, b);
    assert (a + [c])[..|a + [c]| - 1] == a;
  }

  /** The last `@` of `line` as a position on row `y`, or `before` when there is none. */
  function LastRobotOr(line: string, y: nat, before: Position): Position
  {
    if line == [] then before
    else if line[|line| - 1] == '@' then Position(|line| - 1, y)
    else LastRobotOr(line[..|line| - 1], y, before)
  }

  /** The robot's position: the last `@` of the map, or `(0, 0)` when there is none. */
  function RobotOf(lines: seq<string>): Position
  {
    if lines == [] then Position(0, 0)
    else LastRobotOr(lines[|lines| - 1], |lines| - 1, RobotOf(lines[..|lines| - 1]))
  }

  /** `p` is a cell of `lines` holding `@`. */
  predicate RobotAt(lines: seq<string>, p: Position)
  {
    p.y < |lines| && p.x < |lines[p.y]| && lines[p.y][p.x] == '@'
  }

  /** Cell `(x, y)` comes after `p`, row by row. */
  predicate Later(x: nat, y: nat, p: Position)
  {
    y > p.y || (y == p.y && x > p.x)
  }

  /** No cell of `lines` after `p`, row by row, holds `@`. */
  predicate NoRobotAfter(lines: seq<string>, p: Position)
  {
    forall y: nat, x: nat :: y < |lines| && x < |lines[y]| && Later(x, y, p) ==> lines[y][x] != '@'
  }

  predicate NoRobot(lines: seq<string>)
  {
    forall y, x :: 0 <= y < |lines| && 0 <= x < |lines[y]| ==> lines[y][x] != '@'
  }

  lemma {:induction false} LastRobotOrIsLast(line: string, y: nat, before: Position)
    ensures var p := LastRobotOr(line, y, before);
      (p.y == y && p.x < |line| && line[p.x] == '@' && forall x :: p.x < x < |line| ==> line[x] != '@')
      || (p == before && '@' !in line)
  {
    if line != [] && line[|line| - 1] != '@' {
      LastRobotOrIsLast(line[..|line| - 1], y, before);
    }
  }

  /** `RobotOf` is the last `@` of the map row by row, or `(0, 0)` when the map has none. */
  lemma {:induction false} RobotOfIsLast(lines: seq<string>)
    ensures var p := RobotOf(lines);
      (RobotAt(lines, p) && NoRobotAfter(lines, p)) || (p == Position(0, 0) && NoRobot(lines))
  {
    if lines != [] {
      var n := |lines| - 1;
      var init := lines[..n];
      RobotOfIsLast(init);
      var before := RobotOf(init);
      LastRobotOrIsLast(lines[n], n, before);
      var p := RobotOf(lines);
      assert p == LastRobotOr(lines[n], n, before);
      if p == before && '@' !in lines[n] {
        if RobotAt(init, before) && NoRobotAfter(init, before) {
          assert RobotAt(lines, p);
          forall y: nat, x: nat | y < |lines| && x < |lines[y]| && Later(x, y, p)
            ensures lines[y][x] != '@'
          {
            if y == n {
              assert lines[n][x] in lines[n];
            } else {
              assert lines[y] == init[y];
            }
          }
        } else {
          forall y, x | 0 <= y < |lines| && 0 <= x < |lines[y]|
            ensures lines[y][x] != '@'
          {
            if y == n {
              assert lines[n][x] in lines[n];
            } else {
              assert lines[y] == init[y];
            }
          }
        }
      }
    }
  }

  /** With exactly one `@` on the map the robot is there. */
  lemma RobotOfUnique(lines: seq<string>, at: Position)
    requires RobotAt(lines, at)
    requires forall y, x :: 0 <= y < |lines| && 0 <= x < |lines[y]| && lines[y][x] == '@' ==> Position(x, y) == at
    ensures RobotOf(lines) == at
  {
    RobotOfIsLast(lines);
  }

  /** The rows of tiles of the map's lines. */
  function TilesOf(lines: seq<string>): (tiles: seq<seq<Tile>>)
    ensures |tiles| == |lines| && forall y :: 0 <= y < |lines| ==> tiles[y] == RowOf(lines[y])
  {
    seq(|lines|, y requires 0 <= y < |lines| => RowOf(lines[y]))
  }

  /**
   * The warehouse `Warehouse::new` reads: one row of tiles per line, as
   * many rows as lines, as wide as the last line is long, and the robot at
   * the last `@`.
   */
  function WarehouseOf(input: string): Warehouse
  {
    var lines := Lines(input);
    Warehouse(if lines == [] then 0 else |lines[|lines| - 1]|, |lines|, TilesOf(lines), RobotOf(lines))
  }

  /** Reading one more character of a line. */
  lemma ReadStep(line: string, x: nat, y: nat, before: Position)
    requires x < |line|
    ensures RowOf(line[..x + 1]) == RowOf(line[..x]) + if TileOf(line[x]).Some? then [TileOf(line[x]).value] else []
    ensures LastRobotOr(line[..x + 1], y, before) ==
      if line[x] == '@' then Position(x, y) else LastRobotOr(line[..x], y, before)
  {
    assert line[..x + 1][..x] == line[..x];
  }

  /** Reading one more line of the map. */
  lemma ReadLine(lines: seq<string>, y: nat)
    requires y < |lines|
    ensures TilesOf(lines[..y + 1]) == TilesOf(lines[..y]) + [RowOf(lines[y])]
    ensures RobotOf(lines[..y + 1]) == LastRobotOr(lines[y], y, RobotOf(lines[..y]))
  {
    assert lines[..y + 1][..y] == lines[..y];
  }

  /** `Warehouse::new`: read the map line by line and character by character. */
  method NewWarehouse(input: string) returns (warehouse: Warehouse)
    ensures warehouse == WarehouseOf(input)
  {
    var lines := Lines(input);
    var tiles: seq<seq<Tile>> := [];
    var robotPosition := Position(0, 0);
    var y := 0;
    var x := 0;
    while y < |lines|
      invariant y <= |lines|
      invariant tiles == TilesOf(lines[..y])
      invariant robotPosition == RobotOf(lines[..y])
      invariant x == if y == 0 then 0 else |lines[y - 1]|
    {
      var row;
      row, robotPosition, x := ReadRow(lines[y], y, robotPosition);
      ReadLine(lines, y);
      tiles := tiles + [row];
      y := y + 1;
    }
    assert lines[..y] == lines;
    warehouse := Warehouse(x, y, tiles, robotPosition);
  }

  /**
   * The inner loop of `Warehouse::new` over line `y`: its tiles, the robot's
   * position after it, and the column reached.
   */
  method ReadRow(line: string, y: nat, before: Position) returns (row: seq<Tile>, robotPosition: Position, x: nat)
    ensures row == RowOf(line) && robotPosition == LastRobotOr(line, y, before) && x == |line|
  {
    row := [];
    robotPosition := before;
    x := 0;
    while x < |line|
      invariant x <= |line|
      invariant row == RowOf(line[..x])
      invariant robotPosition == LastRobotOr(line[..x], y, before)
    {
      ReadStep(line, x, y, before);
      var character := line[x];
      if character == '#' {
        row := row + [Wall];
      } else if character == 'O' {
        row := row + [Box];
      } else if character == '.' {
        row := row + [Empty];
      } else if character == '@' {
        row := row + [Empty];
        robotPosition := Position(x, y);
      }
      x := x + 1;
    }
    assert line[..x] == line;
  }

  // ---------------------------------------------------------------------------
  // Rendering the map
  // ---------------------------------------------------------------------------

  function TileChar(t: Tile): char
  {
    match t
    case Wall => '#'
    case Empty => '.'
    case Box => 'O'
  }

  /** Every cell that is not the robot's has a tile to show: otherwise the rendering indexes out of range. */
  predicate Renderable(w: Warehouse)
  {
    forall y, x :: 0 <= y < w.height && 0 <= x < w.width && w.robotPosition != Position(x, y) ==>
      y < |w.tiles| && x < |w.tiles[y]|
  }

  /** Row `y` as shown: `@` at the robot, else its tile's character. */
  function RenderRow(w: Warehouse, y: nat): (row: string)
    requires Renderable(w) && y < w.height
    ensures |row| == w.width
  {
    seq(w.width, x requires 0 <= x < w.width =>
      if w.robotPosition == Position(x, y) then '@' else TileChar(w.tiles[y][x]))
  }

  function RenderRows(w: Warehouse): (rows: seq<string>)
    requires Renderable(w)
    ensures |rows| == w.height && forall y :: 0 <= y < w.height ==> rows[y] == RenderRow(w, y)
  {
    seq(w.height, y requires 0 <= y < w.height => RenderRow(w, y))
  }

  /** The warehouse as `Display` shows it: every row followed by a newline. */
  function Rendered(w: Warehouse): string
    requires Renderable(w)
  {
    Unlines(RenderRows(w))
  }

  lemma {:induction false} UnlinesSnoc(lines: seq<string>, line: string)
    ensures Unlines(lines + [line]) == Unlines(lines) + line + ['\n']
  {
    if lines == [] {
      assert [] + [line] == [line];
    } else {
      assert (lines + [line])[1..] == lines[1..] + [line];
      UnlinesSnoc(lines[1..], line);
    }
  }

  /** `Display for Warehouse`: write the rows, a character at a time. */
  method Display(w: Warehouse) returns (text: string)
    requires Renderable(w)
    ensures text == Rendered(w)
  {
    text := [];
    ghost var rows := RenderRows(w);
    for y := 0 to w.height
      invariant text == Unlines(rows[..y])
    {
      for x := 0 to w.width
        invariant text == Unlines(rows[..y]) + rows[y][..x]
      {
        assert rows[y][..x + 1] == rows[y][..x] + [rows[y][x]];
        if w.robotPosition.x == x && w.robotPosition.y == y {
          text := text + ['@'];
        } else {
          text := text + [TileChar(w.tiles[y][x])];
        }
      }
      assert rows[y][..w.width] == rows[y];
      assert rows[..y + 1] == rows[..y] + [rows[y]];
      UnlinesSnoc(rows[..y], rows[y]);
      text := text + ['\n'];
    }
    assert rows[..w.height] == rows;
  }

  /** A rectangular map of `#`, `O`, `.` and `@`, with `@` only at `at`. */
  predicate Drawn(lines: seq<string>, at: Position)
  {
    && (forall y :: 0 <= y < |lines| ==> |lines[y]| == |lines[0]|)
    && (forall y, x :: 0 <= y < |lines| && 0 <= x < |lines[y]| ==> IsMapChar(lines[y][x]))
    && RobotAt(lines, at)
    && (forall y, x :: 0 <= y < |lines| && 0 <= x < |lines[y]| && lines[y][x] == '@' ==> Position(x, y) == at)
  }

  /** Such a map, written one line per row, is read as its rows of tiles with the robot at `at`. */
  lemma ReadDrawn(lines: seq<string>, at: Position)
    requires Drawn(lines, at)
    ensures WarehouseOf(Unlines(lines)) == Warehouse(|lines[0]|, |lines|, TilesOf(lines), at)
  {
    forall k | 0 <= k < |lines| ensures IsLine(lines[k]) {
      assert forall x :: 0 <= x < |lines[k]| ==> IsMapChar(lines[k][x]);
    }
    LinesUnlines(lines);
    RobotOfUnique(lines, at);
  }

  lemma ShowDrawnRow(lines: seq<string>, at: Position, y: nat)
    requires Drawn(lines, at) && y < |lines|
    ensures Renderable(Warehouse(|lines[0]|, |lines|, TilesOf(lines), at))
    ensures RenderRow(Warehouse(|lines[0]|, |lines|, TilesOf(lines), at), y) == lines[y]
  {
    var w := Warehouse(|lines[0]|, |lines|, TilesOf(lines), at);
    forall y' | 0 <= y' < |lines| ensures |w.tiles[y']| == |lines[y']| {
      RowOfMapChars(lines[y']);
    }
    var row := RenderRow(w, y);
    RowOfMapChars(lines[y]);
    forall x | 0 <= x < |lines[y]| ensures row[x] == lines[y][x] {
      if Position(x, y) != at {
        assert TileOf(lines[y][x]) == Some(w.tiles[y][x]);
      }
    }
  }

  /**
   * A rectangular map of `#`, `O`, `.` with exactly one `@`, written one
   * line per row, is read back and rendered as exactly the same text.
   */
  lemma DisplayWarehouse(lines: seq<string>, at: Position)
    requires Drawn(lines, at)
    ensures Renderable(WarehouseOf(Unlines(lines)))
    ensures Rendered(WarehouseOf(Unlines(lines))) == Unlines(lines)
  {
    ReadDrawn(lines, at);
    var w := Warehouse(|lines[0]|, |lines|, TilesOf(lines), at);
    ShowDrawnRow(lines, at, 0);
    var rows := RenderRows(w);
    forall y | 0 <= y < |lines| ensures rows[y] == lines[y] {
      ShowDrawnRow(lines, at, y);
    }
    assert rows == lines;
  }

  // ---------------------------------------------------------------------------
  // Reading the moves
  // ---------------------------------------------------------------------------

  function MoveOf(c: char): Option<Move>
  {
    match c
    case '^' => Some(Up)
    case '>' => Some(Right)
    case 'v' => Some(Down)
    case '<' => Some(Left)
    case _ => None
  }

  /** A character of the moves section: a move or a line break. */
  predicate IsMoveChar(c: char)
  {
    c == '\n' || MoveOf(c).Some?
  }

  /**
   * The moves of a section, in order, skipping line breaks: `None` when the
   * section holds any other character, where the program panics.
   */
  function MovesOf(s: string): (r: Option<seq<Move>>)
    ensures r.None? <==> exists i :: 0 <= i < |s| && !IsMoveChar(s[i])
    ensures r.Some? ==> |r.value| <= |s|
  {
    if s == [] then Some([])
    else
      var init := s[..|s| - 1];
      var c := s[|s| - 1];
      match MovesOf(init)
      case None =>
        assert exists i :: 0 <= i < |s| && !IsMoveChar(s[i]) by {
          var i :| 0 <= i < |init| && !IsMoveChar(init[i]);
          assert s[i] == init[i];
        }
        None
      case Some(moves) =>
        if c == '\n' then Some(moves)
        else if MoveOf(c).Some? then Some(moves + [MoveOf(c).value])
        else None
  }

  /** Two pieces of a section read one after the other. */
  lemma {:induction false} MovesOfAppend(a: string, b: string)
    ensures MovesOf(a + b) ==
      if MovesOf(a).Some? && MovesOf(b).Some? then Some(MovesOf(a).value + MovesOf(b).value) else None
    decreases |b|
  {
    if b == [] {
      assert a + b == a;
      if MovesOf(a).Some? {
        assert MovesOf(a).value + [] == MovesOf(a).value;
      }
    } else {
      var b' := b[..|b| - 1];
      assert (a + b)[..|a + b| - 1] == a + b';
      var c := b[|b| - 1];
      assert (a + b)[|a + b| - 1] == c;
      assert b[..|b| - 1] == b';
      MovesOfAppend(a, b');
      if MovesOf(a).Some? && MovesOf(b').Some? {
        var ab := MovesOf(a).value + MovesOf(b').value;
        if c == '\n' {
          assert MovesOf(b) == MovesOf(b');
        } else if MoveOf(c).Some? {
          assert MovesOf(b) == Some(MovesOf(b').value + [MoveOf(c).value]);
          assert ab + [MoveOf(c).value] == MovesOf(a).value + (MovesOf(b').value + [MoveOf(c).value]);
        }
      }
    }
  }

  /** A line break anywhere in the moves section changes nothing. */
  lemma LineBreakSkipped(a: string, b: string)
    ensures MovesOf(a + ['\n'] + b) == MovesOf(a + b)
  {
    MovesOfAppend(a + ['\n'], b);
    MovesOfAppend(a, ['\n']);
    MovesOfAppend(a, b);
    assert ['\n'][..0] == [];
  }

  function MoveChar(m: Move): char
  {
    match m
    case Up => '^'
    case Right => '>'
    case Down => 'v'
    case Left => '<'
  }

  function FormatMoves(moves: seq<Move>): (s: string)
    ensures |s| == |moves|
  {
    seq(|moves|, i requires 0 <= i < |moves| => MoveChar(moves[i]))
  }

  /** The moves written one character each are read back as they were. */
  lemma {:induction false} MovesOfFormat(moves: seq<Move>)
    ensures MovesOf(FormatMoves(moves)) == Some(moves)
    decreases |moves|
  {
    if moves != [] {
      var init := moves[..|moves| - 1];
      assert FormatMoves(moves)[..|moves| - 1] == FormatMoves(init);
      MovesOfFormat(init);
      assert init + [moves[|moves| - 1]] == moves;
    }
  }

  /** `Simulation::new`'s loop over the moves section. */
  method ParseMoves(text: string) returns (r: Option<seq<Move>>)
    ensures r == MovesOf(text)
  {
    var moves: seq<Move> := [];
    for i := 0 to |text|
      invariant MovesOf(text[..i]) == Some(moves)
    {
      assert text[..i + 1][..i] == text[..i];
      match text[i]
      case '^' => moves := moves + [Up];
      case '>' => moves := moves + [Right];
      case 'v' => moves := moves + [Down];
      case '<' => moves := moves + [Left];
      case '\n' =>
      case _ =>
        return None;
    }
    assert text[..|text|] == text;
    r := Some(moves);
  }

  // ---------------------------------------------------------------------------
  // The whole input
  // ---------------------------------------------------------------------------

  /**
   * `Simulation::new`: the map is the first blank-line-separated section and
   * the moves the second. `None` where the program panics: when there is
   * no second section or the moves section holds a foreign character.
   */
  function SimulationOf(input: string): (r: Option<Simulation>)
    ensures r.Some? ==> |SplitTerminatorStr(input, "\n\n")| >= 2
    ensures r.Some? ==> r.value.warehouse == WarehouseOf(SplitTerminatorStr(input, "\n\n")[0])
    ensures r.Some? ==> MovesOf(SplitTerminatorStr(input, "\n\n")[1]) == Some(r.value.moves)
  {
    var sections := SplitTerminatorStr(input, "\n\n");
    if |sections| < 2 then None
    else
      match MovesOf(sections[1])
      case None => None
      case Some(moves) => Some(Simulation(WarehouseOf(sections[0]), moves))
  }

  method NewSimulation(input: string) returns (r: Option<Simulation>)
    ensures r == SimulationOf(input)
  {
    var sections := SplitTerminatorStr(input, "\n\n");
    if |sections| < 2 {
      return None;
    }
    var moves := ParseMoves(sections[1]);
    if moves.None? {
      return None;
    }
    var warehouse := NewWarehouse(sections[0]);
    r := Some(Simulation(warehouse, moves.value));
  }

  /**
   * A drawn map, one line per row, then a blank line, then a non-empty list
   * of moves is loaded as that map and those moves.
   */
  lemma LoadDrawn(lines: seq<string>, at: Position, moves: seq<Move>)
    requires Drawn(lines, at) && moves != []
    ensures SimulationOf(Join(lines, '\n') + "\n\n" + FormatMoves(moves)) ==
      Some(Simulation(Warehouse(|lines[0]|, |lines|, TilesOf(lines), at), moves))
  {
    var drawing, text := Join(lines, '\n'), FormatMoves(moves);
    ReadJoined(lines, at);
    MovesSection(moves);
    TwoSections(drawing, text);
    MovesOfFormat(moves);
  }

  /** A drawn map joined by line breaks is read as its rows, with no blank line inside. */
  lemma ReadJoined(lines: seq<string>, at: Position)
    requires Drawn(lines, at)
    ensures NoDoubleNewline(Join(lines, '\n'))
    ensures Join(lines, '\n') != [] && Join(lines, '\n')[|Join(lines, '\n')| - 1] != '\n'
    ensures WarehouseOf(Join(lines, '\n')) == Warehouse(|lines[0]|, |lines|, TilesOf(lines), at)
  {
    forall k | 0 <= k < |lines| ensures IsLine(lines[k]) && lines[k] != [] {
      assert forall x :: 0 <= x < |lines[k]| ==> IsMapChar(lines[k][x]);
      assert |lines[k]| == |lines[0]| == |lines[at.y]|;
    }
    LinesJoin(lines);
    JoinNoDoubleNewline(lines);
    RobotOfUnique(lines, at);
  }

  /** A non-empty list of moves, written out, holds no line break. */
  lemma MovesSection(moves: seq<Move>)
    requires moves != []
    ensures NoDoubleNewline(FormatMoves(moves)) && FormatMoves(moves) != []
  {
    var text := FormatMoves(moves);
    assert forall i :: 0 <= i < |text| ==> text[i] != '\n';
  }

  /** An empty moves section is no section at all: the program panics. */
  lemma LoadWithoutMoves(lines: seq<string>)
    requires |lines| > 0 && forall k :: 0 <= k < |lines| ==> '\n' !in lines[k] && lines[k] != []
    ensures SimulationOf(Join(lines, '\n') + "\n\n").None?
  {
    JoinNoDoubleNewline(lines);
    EmptySecondSection(Join(lines, '\n'));
  }

  /**
   * `part_one` only loads the input and renders the map for printing: its
   * answer is `None`. Rendering indexes every tile, so the map must be
   * renderable.
   */
  method PartOne(input: string) returns (r: Option<nat>)
    requires SimulationOf(input).Some? && Renderable(SimulationOf(input).value.warehouse)
    ensures r.None?
  {
    var simulation := NewSimulation(input);
    var shown := Display(simulation.value.warehouse);
    r := None;
  }
}
