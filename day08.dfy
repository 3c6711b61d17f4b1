/**
 * Day 8: antennae on a city map. Every cell of the map is a node; a node
 * holding a letter or digit is an antenna of that frequency. Part one marks
 * the nodes that are twice as far from one antenna as from another antenna
 * of the same frequency, in line with both. Part two marks, for every pair
 * of antennae of the same frequency, the nodes reached from the first by
 * whole steps of the difference between the two.
 */
module Day08 {
  import opened Wrappers
  import opened Text

  /** The offset from a node to an antenna of frequency `name`. */
  datatype Distance = Distance(name: char, xDistance: int, yDistance: int)

  /** An antenna of frequency `name` at column `xPosition` of row `yPosition`. */
  datatype Antenna = Antenna(name: char, xPosition: int, yPosition: int)

  /**
   * A node of the map: the antenna on it, if any, its offsets to the
   * antennae, and whether it is an antinode (unset until computed).
   */
  datatype Node = Node(antenna: Option<char>, antennaeDistances: seq<Distance>, isAntinode: Option<bool>)
  {
    /** `is_antinode`: an unset flag reads as not an antinode. */
    predicate IsAntinode()
    {
      isAntinode == Some(true)
    }
  }

  /** The nodes, row by row. */
  type NodeMap = seq<seq<Node>>

  /** A position as `(x, y)`: column, then row. */
  type Position = (int, int)

  function Pos(a: Antenna): Position
  {
    (a.xPosition, a.yPosition)
  }

  // ---------------------------------------------------------------------------
  // Part one: a node twice as far from one antenna as from another
  // ---------------------------------------------------------------------------

  /** The two offsets name the same frequency and one is exactly twice the other. */
  predicate Doubled(a: Distance, b: Distance)
  {
    a.name == b.name
    && ((b.xDistance == 2 * a.xDistance && b.yDistance == 2 * a.yDistance)
        || (2 * b.xDistance == a.xDistance && 2 * b.yDistance == a.yDistance))
  }

  /** Two entries of the list, the earlier first, are doubled. */
  predicate HasDoubledPair(ds: seq<Distance>)
  {
    exists i, j :: 0 <= i < j < |ds| && Doubled(ds[i], ds[j])
  }

  /**
   * `Node::compute_antinode`: compare every offset with every later one and
   * set the flag to whether some pair is doubled. The loop bound
   * `len - 1` is unsigned, so the source panics on a node with no offsets.
   */
  method ComputeAntinode(node: Node) returns (result: Node)
    requires |node.antennaeDistances| >= 1
    ensures result == node.(isAntinode := Some(HasDoubledPair(node.antennaeDistances)))
  {
    var ds := node.antennaeDistances;
    for i := 0 to |ds| - 1
      invariant forall i', j :: 0 <= i' < i && i' < j < |ds| ==> !Doubled(ds[i'], ds[j])
    {
      var distance := ds[i];
      var rest := ds[i + 1..];
      for j := 0 to |rest|
        invariant forall j' :: i < j' < i + 1 + j ==> !Doubled(distance, ds[j'])
      {
        var otherDistance := rest[j];
        if distance.name == otherDistance.name
           && ((otherDistance.xDistance == 2 * distance.xDistance
                && otherDistance.yDistance == 2 * distance.yDistance)
               || (2 * otherDistance.xDistance == distance.xDistance
                   && 2 * otherDistance.yDistance == distance.yDistance))
        {
          assert Doubled(ds[i], ds[i + 1 + j]);
          result := node.(isAntinode := Some(true));
          return;
        }
      }
    }
    result := node.(isAntinode := Some(false));
  }

  /** The test of `compute_antinode`: offsets `(1, 1)` and `(2, 2)` to two `a` antennae. */
  lemma ComputeAntinodeExample()
    ensures HasDoubledPair([Distance('a', 1, 1), Distance('a', 2, 2)])
  {
    var ds := [Distance('a', 1, 1), Distance('a', 2, 2)];
    assert Doubled(ds[0], ds[1]);
  }

  /** The offsets from node `(x, y)` to each antenna, in the order of the antennae. */
  function DistancesTo(ants: seq<Antenna>, x: int, y: int): (ds: seq<Distance>)
    ensures |ds| == |ants|
  {
    seq(|ants|, i requires 0 <= i < |ants| => Distance(ants[i].name, ants[i].xPosition - x, ants[i].yPosition - y))
  }

  /**
   * The puzzle's antinode: node `(x, y)` is in line with two antennae of the
   * same frequency and twice as far from the first as from the second.
   */
  predicate Antinode(ants: seq<Antenna>, x: int, y: int)
  {
    exists i, j :: 0 <= i < |ants| && 0 <= j < |ants| && i != j && ants[i].name == ants[j].name
      && ants[i].xPosition - x == 2 * (ants[j].xPosition - x)
      && ants[i].yPosition - y == 2 * (ants[j].yPosition - y)
  }

  /** Looking for a doubled pair among the offsets finds exactly the antinodes. */
  lemma DoubledPairIsAntinode(ants: seq<Antenna>, x: int, y: int)
    ensures HasDoubledPair(DistancesTo(ants, x, y)) <==> Antinode(ants, x, y)
  {
    var ds := DistancesTo(ants, x, y);
    if HasDoubledPair(ds) {
      var i, j :| 0 <= i < j < |ds| && Doubled(ds[i], ds[j]);
      if ds[j].xDistance == 2 * ds[i].xDistance && ds[j].yDistance == 2 * ds[i].yDistance {
        assert ants[j].xPosition - x == 2 * (ants[i].xPosition - x);
      } else {
        assert ants[i].xPosition - x == 2 * (ants[j].xPosition - x);
      }
    }
    if Antinode(ants, x, y) {
      var i, j :| 0 <= i < |ants| && 0 <= j < |ants| && i != j && ants[i].name == ants[j].name
        && ants[i].xPosition - x == 2 * (ants[j].xPosition - x)
        && ants[i].yPosition - y == 2 * (ants[j].yPosition - y);
      if i < j {
        assert Doubled(ds[i], ds[j]);
      } else {
        assert Doubled(ds[j], ds[i]);
      }
    }
  }

  // ---------------------------------------------------------------------------
  // Reading the map
  // ---------------------------------------------------------------------------

  predicate IsAntennaChar(c: char)
  {
    'a' <= c <= 'z' || 'A' <= c <= 'Z' || '0' <= c <= '9'
  }

  /** Every character of the rows is `.` or an antenna; `new` panics on any other. */
  predicate MapChars(rows: seq<string>)
  {
    forall y, x :: 0 <= y < |rows| && 0 <= x < |rows[y]| ==> rows[y][x] == '.' || IsAntennaChar(rows[y][x])
  }

  /** The node `new` makes of a map character, with no offsets and the flag unset. */
  function NodeOf(c: char): Node
  {
    if c == '.' then Node(None, [], None) else Node(Some(c), [], None)
  }

  function NodesOf(rows: seq<string>): (m: NodeMap)
    ensures |m| == |rows| && forall y :: 0 <= y < |m| ==> |m[y]| == |rows[y]|
  {
    seq(|rows|, y requires 0 <= y < |rows| => seq(|rows[y]|, x requires 0 <= x < |rows[y]| => NodeOf(rows[y][x])))
  }

  predicate InMap(m: NodeMap, p: Position)
  {
    0 <= p.1 < |m| && 0 <= p.0 < |m[p.1]|
  }

  /** The antennae of row `y` left of column `x`, left to right. */
  function RowAntennae(m: NodeMap, y: nat, x: nat): seq<Antenna>
    requires y < |m| && x <= |m[y]|
  {
    if x == 0 then []
    else RowAntennae(m, y, x - 1) + match m[y][x - 1].antenna
      case Some(c) => [Antenna(c, x - 1, y)]
      case None => []
  }

  /** The antennae of the rows above `y`, row after row. */
  function GridAntennae(m: NodeMap, y: nat): seq<Antenna>
    requires y <= |m|
  {
    if y == 0 then [] else GridAntennae(m, y - 1) + RowAntennae(m, y - 1, |m[y - 1]|)
  }

  /** An antenna `a` is on the map, at a node holding its frequency. */
  predicate Holds(m: NodeMap, a: Antenna)
  {
    InMap(m, Pos(a)) && m[a.yPosition][a.xPosition].antenna == Some(a.name)
  }

  lemma {:induction false} RowAntennaeHas(m: NodeMap, y: nat, x: nat, a: Antenna)
    requires y < |m| && x <= |m[y]|
    ensures a in RowAntennae(m, y, x) <==> a.yPosition == y && a.xPosition < x && Holds(m, a)
  {
    if x > 0 {
      var before := RowAntennae(m, y, x - 1);
      var last := match m[y][x - 1].antenna case Some(c) => [Antenna(c, x - 1, y)] case None => [];
      RowAntennaeHas(m, y, x - 1, a);
      assert a in before + last <==> a in before || a in last;
    }
  }

  lemma {:induction false} RowAntennaeOrdered(m: NodeMap, y: nat, x: nat)
    requires y < |m| && x <= |m[y]|
    ensures forall i, j :: 0 <= i < j < |RowAntennae(m, y, x)| ==>
              RowAntennae(m, y, x)[i].xPosition < RowAntennae(m, y, x)[j].xPosition
  {
    if x > 0 {
      RowAntennaeOrdered(m, y, x - 1);
      var before := RowAntennae(m, y, x - 1);
      forall i | 0 <= i < |before|
        ensures before[i].xPosition < x - 1
      {
        RowAntennaeHas(m, y, x - 1, before[i]);
      }
    }
  }

  lemma {:induction false} GridAntennaeHas(m: NodeMap, y: nat, a: Antenna)
    requires y <= |m|
    ensures a in GridAntennae(m, y) <==> a.yPosition < y && Holds(m, a)
  {
    if y > 0 {
      var above, row := GridAntennae(m, y - 1), RowAntennae(m, y - 1, |m[y - 1]|);
      GridAntennaeHas(m, y - 1, a);
      RowAntennaeHas(m, y - 1, |m[y - 1]|, a);
      if a.yPosition < y - 1 {
        assert a !in row;
        assert a in above + row <==> a in above;
      } else if a.yPosition == y - 1 {
        assert a !in above;
        assert a in above + row <==> a in row;
      } else {
        assert a !in above && a !in row;
      }
    }
  }

  /** `p` comes before `q` in row-major order. */
  predicate Before(p: Position, q: Position)
  {
    p.1 < q.1 || (p.1 == q.1 && p.0 < q.0)
  }

  predicate RowMajor(ants: seq<Antenna>)
  {
    forall i, j :: 0 <= i < j < |ants| ==> Before(Pos(ants[i]), Pos(ants[j]))
  }

  lemma RowMajorAppend(above: seq<Antenna>, row: seq<Antenna>, y: nat)
    requires RowMajor(above) && forall i :: 0 <= i < |above| ==> above[i].yPosition < y
    requires forall j :: 0 <= j < |row| ==> row[j].yPosition == y
    requires forall i, j :: 0 <= i < j < |row| ==> row[i].xPosition < row[j].xPosition
    ensures RowMajor(above + row)
  {
    var r := above + row;
    forall i, j | 0 <= i < j < |r|
      ensures Before(Pos(r[i]), Pos(r[j]))
    {
      if j < |above| {
        assert r[i] == above[i] && r[j] == above[j];
      } else if i < |above| {
        assert r[i] == above[i] && r[j] == row[j - |above|];
      } else {
        assert r[i] == row[i - |above|] && r[j] == row[j - |above|];
      }
    }
  }

  lemma {:induction false} GridAntennaeOrdered(m: NodeMap, y: nat)
    requires y <= |m|
    ensures RowMajor(GridAntennae(m, y))
  {
    if y > 0 {
      GridAntennaeOrdered(m, y - 1);
      RowAntennaeOrdered(m, y - 1, |m[y - 1]|);
      var above, row := GridAntennae(m, y - 1), RowAntennae(m, y - 1, |m[y - 1]|);
      forall i | 0 <= i < |above|
        ensures above[i].yPosition < y - 1
      {
        GridAntennaeHas(m, y - 1, above[i]);
      }
      forall j | 0 <= j < |row|
        ensures row[j].yPosition == y - 1
      {
        RowAntennaeHas(m, y - 1, |m[y - 1]|, row[j]);
      }
      RowMajorAppend(above, row, y - 1);
    }
  }

  /**
   * The antennae of the map: exactly one per antenna node, in row-major
   * order, so no two share a position.
   */
  function AntennaeOf(m: NodeMap): (ants: seq<Antenna>)
    ensures forall a :: a in ants <==> Holds(m, a)
    ensures RowMajor(ants)
  {
    AntennaeOfHas(m);
    GridAntennaeOrdered(m, |m|);
    GridAntennae(m, |m|)
  }

  lemma AntennaeOfHas(m: NodeMap)
    ensures forall a :: a in GridAntennae(m, |m|) <==> Holds(m, a)
  {
    forall a: Antenna {
      GridAntennaeHas(m, |m|, a);
    }
  }

  /** `collect_antennae`: scan the nodes row by row, listing each antenna. */
  method CollectAntennae(nodeMap: NodeMap) returns (antennae: seq<Antenna>)
    ensures antennae == AntennaeOf(nodeMap)
  {
    antennae := [];
    for y := 0 to |nodeMap|
      invariant antennae == GridAntennae(nodeMap, y)
    {
      for x := 0 to |nodeMap[y]|
        invariant antennae == GridAntennae(nodeMap, y) + RowAntennae(nodeMap, y, x)
      {
        var node := nodeMap[y][x];
        if node.antenna.Some? {
          antennae := antennae + [Antenna(node.antenna.value, x, y)];
        }
      }
    }
  }

  /** The test of `new`: one row `.aA0zZ9` gives six antennae, left to right. */
  lemma AntennaeExample()
    ensures AntennaeOf(NodesOf([".aA0zZ9"])) ==
      [Antenna('a', 1, 0), Antenna('A', 2, 0), Antenna('0', 3, 0), Antenna('z', 4, 0), Antenna('Z', 5, 0), Antenna('9', 6, 0)]
  {
    var m: NodeMap := NodesOf([".aA0zZ9"]);
    assert m[0][0].antenna.None?;
    assert RowAntennae(m, 0, 1) == [];
    assert RowAntennae(m, 0, 2) == [Antenna('a', 1, 0)];
    assert RowAntennae(m, 0, 3) == [Antenna('a', 1, 0), Antenna('A', 2, 0)];
    assert RowAntennae(m, 0, 4) == [Antenna('a', 1, 0), Antenna('A', 2, 0), Antenna('0', 3, 0)];
    assert RowAntennae(m, 0, 5) == [Antenna('a', 1, 0), Antenna('A', 2, 0), Antenna('0', 3, 0), Antenna('z', 4, 0)];
    assert RowAntennae(m, 0, 6) == [Antenna('a', 1, 0), Antenna('A', 2, 0), Antenna('0', 3, 0), Antenna('z', 4, 0), Antenna('Z', 5, 0)];
    assert GridAntennae(m, 1) == [] + RowAntennae(m, 0, 7);
  }

  // ---------------------------------------------------------------------------
  // Rewriting the nodes one by one
  // ---------------------------------------------------------------------------

  predicate SameShape(a: NodeMap, b: NodeMap)
  {
    |a| == |b| && forall y :: 0 <= y < |a| ==> |a[y]| == |b[y]|
  }

  /**
   * A row-major, cell-by-cell rewrite of `m0` into `target` has reached
   * `(x, y)`: the cells before it are rewritten, the others untouched.
   */
  ghost predicate UpdatedUpTo(m: NodeMap, m0: NodeMap, target: NodeMap, y: int, x: int)
  {
    SameShape(m, m0) && SameShape(target, m0)
    && forall y', x' {:trigger m[y'][x']} :: 0 <= y' < |m0| && 0 <= x' < |m0[y']| ==>
         m[y'][x'] == if y' < y || (y' == y && x' < x) then target[y'][x'] else m0[y'][x']
  }

  lemma UpdateStart(m0: NodeMap, target: NodeMap)
    requires SameShape(target, m0)
    ensures UpdatedUpTo(m0, m0, target, 0, 0)
  {
  }

  lemma UpdateStep(m: NodeMap, m0: NodeMap, target: NodeMap, y: nat, x: nat)
    requires y < |m0| && x < |m0[y]| && UpdatedUpTo(m, m0, target, y, x)
    ensures UpdatedUpTo(m[y := m[y][x := target[y][x]]], m0, target, y, x + 1)
  {
    var next := m[y := m[y][x := target[y][x]]];
    forall y', x' | 0 <= y' < |m0| && 0 <= x' < |m0[y']|
      ensures next[y'][x'] == if y' < y || (y' == y && x' < x + 1) then target[y'][x'] else m0[y'][x']
    {
      if y' != y || x' != x {
        assert next[y'][x'] == m[y'][x'];
      }
    }
  }

  lemma UpdateNextRow(m: NodeMap, m0: NodeMap, target: NodeMap, y: nat)
    requires y < |m0| && UpdatedUpTo(m, m0, target, y, |m0[y]|)
    ensures UpdatedUpTo(m, m0, target, y + 1, 0)
  {
  }

  lemma UpdateDone(m: NodeMap, m0: NodeMap, target: NodeMap)
    requires UpdatedUpTo(m, m0, target, |m0|, 0)
    ensures m == target
  {
    forall y | 0 <= y < |m0|
      ensures m[y] == target[y]
    {
    }
  }

  /** Each node with the offsets to the antennae appended to its own. */
  function WithDistances(m: NodeMap, ants: seq<Antenna>): (r: NodeMap)
    ensures SameShape(r, m)
  {
    seq(|m|, y requires 0 <= y < |m| => seq(|m[y]|, x requires 0 <= x < |m[y]| =>
      m[y][x].(antennaeDistances := m[y][x].antennaeDistances + DistancesTo(ants, x, y))))
  }

  /** Each node flagged by whether its offsets hold a doubled pair. */
  function Classified(m: NodeMap): (r: NodeMap)
    ensures SameShape(r, m)
  {
    seq(|m|, y requires 0 <= y < |m| => seq(|m[y]|, x requires 0 <= x < |m[y]| =>
      m[y][x].(isAntinode := Some(HasDoubledPair(m[y][x].antennaeDistances)))))
  }

  /**
   * The inner loop of `compute_distances`: one offset per antenna, in the
   * order of the antennae, pushed onto the node at `(x, y)`.
   */
  method AppendDistances(node: Node, antennae: seq<Antenna>, x: int, y: int) returns (result: Node)
    ensures result == node.(antennaeDistances := node.antennaeDistances + DistancesTo(antennae, x, y))
  {
    result := node;
    for k := 0 to |antennae|
      invariant result == node.(antennaeDistances := node.antennaeDistances + DistancesTo(antennae, x, y)[..k])
    {
      var antenna := antennae[k];
      result := result.(antennaeDistances := result.antennaeDistances
        + [Distance(antenna.name, antenna.xPosition - x, antenna.yPosition - y)]);
      assert DistancesTo(antennae, x, y)[..k + 1] == DistancesTo(antennae, x, y)[..k] + [DistancesTo(antennae, x, y)[k]];
    }
    assert DistancesTo(antennae, x, y)[..|antennae|] == DistancesTo(antennae, x, y);
  }

  /** The positions of the nodes flagged as antinodes. */
  ghost function Marked(m: NodeMap): set<Position>
  {
    set y, x | 0 <= y < |m| && 0 <= x < |m[y]| && m[y][x].IsAntinode() :: (x, y)
  }

  /** The flagged positions a row-major scan that has reached `(x, y)` has seen. */
  ghost function MarkedBefore(m: NodeMap, y: int, x: int): set<Position>
  {
    set y', x' | 0 <= y' < |m| && 0 <= x' < |m[y']| && (y' < y || (y' == y && x' < x)) && m[y'][x'].IsAntinode() :: (x', y')
  }

  lemma MarkedStep(m: NodeMap, y: nat, x: nat)
    requires y < |m| && x < |m[y]|
    ensures (x, y) !in MarkedBefore(m, y, x)
    ensures MarkedBefore(m, y, x + 1) == MarkedBefore(m, y, x) + if m[y][x].IsAntinode() then {(x, y)} else {}
  {
  }

  lemma MarkedNextRow(m: NodeMap, y: nat)
    requires y < |m|
    ensures MarkedBefore(m, y, |m[y]|) == MarkedBefore(m, y + 1, 0)
  {
  }

  lemma MarkedAll(m: NodeMap)
    ensures MarkedBefore(m, |m|, 0) == Marked(m)
  {
  }

  /** Part one's answer: the positions on the map that are antinodes. */
  ghost function AntinodeCells(m: NodeMap, ants: seq<Antenna>): set<Position>
  {
    set y, x | 0 <= y < |m| && 0 <= x < |m[y]| && Antinode(ants, x, y) :: (x, y)
  }

  /**
   * On a freshly read map, with no offsets yet, computing the offsets and
   * flagging doubled pairs flags exactly the antinodes.
   */
  lemma FlaggedAreAntinodes(rows: seq<string>, ants: seq<Antenna>)
    ensures Marked(Classified(WithDistances(NodesOf(rows), ants))) == AntinodeCells(NodesOf(rows), ants)
  {
    var m: NodeMap := NodesOf(rows);
    var c: NodeMap := Classified(WithDistances(m, ants));
    forall y, x | 0 <= y < |m| && 0 <= x < |m[y]|
      ensures c[y][x].IsAntinode() <==> Antinode(ants, x, y)
    {
      assert m[y][x].antennaeDistances == [];
      assert [] + DistancesTo(ants, x, y) == DistancesTo(ants, x, y);
      DoubledPairIsAntinode(ants, x, y);
    }
  }

  // ---------------------------------------------------------------------------
  // Part two: whole lines through two antennae
  // ---------------------------------------------------------------------------

  /** Row `y` of a map with the nodes at the positions in `cells` flagged. */
  function MarkRow(row: seq<Node>, y: int, cells: set<Position>): (r: seq<Node>)
    ensures |r| == |row|
  {
    seq(|row|, x requires 0 <= x < |row| => if (x, y) in cells then row[x].(isAntinode := Some(true)) else row[x])
  }

  /** `m` with the nodes at the positions in `cells` flagged as antinodes. */
  function MarkAll(m: NodeMap, cells: set<Position>): (r: NodeMap)
    ensures SameShape(r, m)
  {
    seq(|m|, y requires 0 <= y < |m| => MarkRow(m[y], y, cells))
  }

  /** Each node of `MarkAll(m, cells)`: flagged where `cells` says, as before elsewhere. */
  lemma MarkAllAt(m: NodeMap, cells: set<Position>, y: int, x: int)
    requires 0 <= y < |m| && 0 <= x < |m[y]|
    ensures MarkAll(m, cells)[y][x] == if (x, y) in cells then m[y][x].(isAntinode := Some(true)) else m[y][x]
  {
  }

  /** Two maps of one shape whose nodes agree are equal. */
  lemma SameNodes(a: NodeMap, b: NodeMap)
    requires SameShape(a, b)
    requires forall y, x :: 0 <= y < |a| && 0 <= x < |a[y]| ==> a[y][x] == b[y][x]
    ensures a == b
  {
    forall y | 0 <= y < |a|
      ensures a[y] == b[y]
    {
    }
  }

  lemma MarkNothing(m: NodeMap)
    ensures MarkAll(m, {}) == m
  {
    forall y, x | 0 <= y < |m| && 0 <= x < |m[y]|
      ensures MarkAll(m, {})[y][x] == m[y][x]
    {
      MarkAllAt(m, {}, y, x);
    }
    SameNodes(MarkAll(m, {}), m);
  }

  /** Flagging twice flags the union: the flags are only ever set. */
  lemma MarkTwice(m: NodeMap, a: set<Position>, b: set<Position>)
    ensures MarkAll(MarkAll(m, a), b) == MarkAll(m, a + b)
  {
    var once := MarkAll(m, a);
    forall y, x | 0 <= y < |m| && 0 <= x < |m[y]|
      ensures MarkAll(once, b)[y][x] == MarkAll(m, a + b)[y][x]
    {
      MarkAllAt(m, a, y, x);
      MarkAllAt(once, b, y, x);
      MarkAllAt(m, a + b, y, x);
    }
    SameNodes(MarkAll(once, b), MarkAll(m, a + b));
  }

  lemma MarkOne(m: NodeMap, p: Position)
    requires InMap(m, p)
    ensures SetAntinode(m, p) == MarkAll(m, {p})
  {
    var r := SetAntinode(m, p);
    forall y, x | 0 <= y < |m| && 0 <= x < |m[y]|
      ensures r[y][x] == MarkAll(m, {p})[y][x]
    {
      MarkAllAt(m, {p}, y, x);
    }
    SameNodes(r, MarkAll(m, {p}));
  }

  /** `set_antinode` on the node at `p`. */
  function SetAntinode(m: NodeMap, p: Position): (r: NodeMap)
    requires InMap(m, p)
  {
    m[p.1 := m[p.1][p.0 := m[p.1][p.0].(isAntinode := Some(true))]]
  }

  /** `m` is `m0` with the nodes at the positions in `cells` flagged, node by node. */
  ghost predicate Flagged(m: NodeMap, m0: NodeMap, cells: set<Position>)
  {
    SameShape(m, m0)
    && forall y, x {:trigger m[y][x]} :: 0 <= y < |m0| && 0 <= x < |m0[y]| ==>
         m[y][x] == if (x, y) in cells then m0[y][x].(isAntinode := Some(true)) else m0[y][x]
  }

  lemma FlaggedIsMarkAll(m: NodeMap, m0: NodeMap, cells: set<Position>)
    requires Flagged(m, m0, cells)
    ensures m == MarkAll(m0, cells)
  {
    forall y, x | 0 <= y < |m0| && 0 <= x < |m0[y]|
      ensures m[y][x] == MarkAll(m0, cells)[y][x]
    {
      MarkAllAt(m0, cells, y, x);
    }
    SameNodes(m, MarkAll(m0, cells));
  }

  lemma FlaggedStep(m: NodeMap, m0: NodeMap, cells: set<Position>, p: Position)
    requires Flagged(m, m0, cells) && InMap(m0, p)
    ensures InMap(m, p) && Flagged(SetAntinode(m, p), m0, cells + {p})
  {
  }

  /** Flagging keeps a rectangular map rectangular, of the same size. */
  lemma MarkShaped(m: NodeMap, cells: set<Position>)
    requires Shaped(m)
    ensures Shaped(MarkAll(m, cells)) && |MarkAll(m, cells)| == |m| && |MarkAll(m, cells)[0]| == |m[0]|
  {
  }

  /** Flagging in three rounds flags the union. */
  lemma MarkThrice(m0: NodeMap, a: set<Position>, n0: NodeMap, b: set<Position>, n1: NodeMap, c: set<Position>, n2: NodeMap)
    requires n0 == MarkAll(m0, a) && n1 == MarkAll(n0, b) && n2 == MarkAll(n1, c)
    ensures n2 == MarkAll(m0, a + b + c)
  {
    MarkTwice(m0, a, b);
    MarkTwice(m0, a + b, c);
  }

  /** Adding one position to the flagged set flags one more node. */
  lemma MarkMore(m0: NodeMap, cells: set<Position>, p: Position)
    requires InMap(m0, p)
    ensures InMap(MarkAll(m0, cells), p)
    ensures SetAntinode(MarkAll(m0, cells), p) == MarkAll(m0, cells + {p})
  {
    MarkOne(MarkAll(m0, cells), p);
    MarkTwice(m0, cells, {p});
  }

  /** Flagging one node keeps the map's shape and every position on it. */
  lemma SetKeeps(m: NodeMap, p: Position, q: Position)
    requires Shaped(m) && InMap(m, p) && InMap(m, q)
    ensures Shaped(SetAntinode(m, p)) && |SetAntinode(m, p)| == |m| && |SetAntinode(m, p)[0]| == |m[0]|
    ensures InMap(SetAntinode(m, p), q)
  {
  }

  /**
   * The four rounds of flagging of one pair, in the order the source does
   * them, flag the line through the pair.
   */
  lemma PairSteps(m0: NodeMap, a: Antenna, o: Antenna, n0: NodeMap, n1: NodeMap, n2: NodeMap, dx: int, dy: int, ex: int, ey: int)
    requires Shaped(m0) && InMap(m0, Pos(a)) && InMap(m0, Pos(o))
    requires (dx, dy) == Sub(Pos(a), Pos(o)) && (ex, ey) == Sub(Pos(o), Pos(a))
    requires InMap(SetAntinode(m0, Pos(a)), Pos(o))
    requires n0 == SetAntinode(SetAntinode(m0, Pos(a)), Pos(o))
    requires n1 == MarkAll(n0, RayCells(|m0[0]|, |m0|, Pos(a), (dx, dy)))
    requires n2 == MarkAll(n1, RayCells(|m0[0]|, |m0|, Pos(a), (ex, ey)))
    ensures n2 == MarkAll(m0, LineCells(|m0[0]|, |m0|, a, o))
  {
    var w, h := |m0[0]|, |m0|;
    MarkOne(m0, Pos(a));
    MarkMore(m0, {Pos(a)}, Pos(o));
    MarkThrice(m0, {Pos(a)} + {Pos(o)}, n0, RayCells(w, h, Pos(a), (dx, dy)), n1, RayCells(w, h, Pos(a), (ex, ey)), n2);
    LineInSteps(w, h, a, o, dx, dy, ex, ey);
  }

  /** Every row as long as the first, which exists. */
  predicate Shaped(m: NodeMap)
  {
    |m| > 0 && forall y :: 0 <= y < |m| ==> |m[y]| == |m[0]|
  }

  predicate InBox(w: int, h: int, p: Position)
  {
    0 <= p.0 < w && 0 <= p.1 < h
  }

  function Sub(p: Position, q: Position): Position
  {
    (p.0 - q.0, p.1 - q.1)
  }

  /** `p` moved `t` steps of `d`. */
  function StepPos(p: Position, d: Position, t: int): Position
  {
    (p.0 + t * d.0, p.1 + t * d.1)
  }

  /** Where the walk from `p` in steps of `d` is after `t` steps. */
  function Walk(p: Position, d: Position, t: nat): Position
  {
    if t == 0 then p else (Walk(p, d, t - 1).0 + d.0, Walk(p, d, t - 1).1 + d.1)
  }

  lemma {:induction false} WalkIsStep(p: Position, d: Position, t: nat)
    ensures Walk(p, d, t) == StepPos(p, d, t)
  {
    if t > 0 {
      WalkIsStep(p, d, t - 1);
      assert t * d.0 == (t - 1) * d.0 + d.0 && t * d.1 == (t - 1) * d.1 + d.1;
    }
  }

  /**
   * The positions `mark_antinodes` flags on a `w` by `h` map: `p`, `p + d`,
   * `p + 2d`, … for as long as they stay on the map.
   */
  ghost function RayCells(w: int, h: int, p: Position, d: Position): set<Position>
  {
    set x, y | 0 <= x < w && 0 <= y < h
      && exists k: nat :: (x, y) == Walk(p, d, k) && forall t: nat :: t <= k ==> InBox(w, h, Walk(p, d, t))
      :: (x, y)
  }

  /** The first `k` positions of the walk. */
  ghost function FirstSteps(p: Position, d: Position, k: nat): set<Position>
  {
    if k == 0 then {} else FirstSteps(p, d, k - 1) + {Walk(p, d, k - 1)}
  }

  lemma {:induction false} FirstStepsHas(p: Position, d: Position, k: nat, t: nat)
    requires t < k
    ensures Walk(p, d, t) in FirstSteps(p, d, k)
  {
    if t < k - 1 {
      FirstStepsHas(p, d, k - 1, t);
    }
  }

  lemma {:induction false} FirstStepsOnly(p: Position, d: Position, k: nat, q: Position)
    requires q in FirstSteps(p, d, k)
    ensures exists t: nat :: t < k && q == Walk(p, d, t)
  {
    if q != Walk(p, d, k - 1) {
      FirstStepsOnly(p, d, k - 1, q);
    }
  }

  /** A walk that leaves the map after `k` steps on it flags those `k` positions. */
  lemma RayIsFirstSteps(w: int, h: int, p: Position, d: Position, k: nat)
    requires forall t: nat :: t < k ==> InBox(w, h, Walk(p, d, t))
    requires !InBox(w, h, Walk(p, d, k))
    ensures RayCells(w, h, p, d) == FirstSteps(p, d, k)
  {
    forall q | q in RayCells(w, h, p, d)
      ensures q in FirstSteps(p, d, k)
    {
      var k' :| k' >= 0 && q == Walk(p, d, k') && forall t: nat :: t <= k' ==> InBox(w, h, Walk(p, d, t));
      if k' >= k {
        assert false;
      }
      FirstStepsHas(p, d, k, k');
    }
    forall q | q in FirstSteps(p, d, k)
      ensures q in RayCells(w, h, p, d)
    {
      FirstStepsOnly(p, d, k, q);
      var t: nat :| t < k && q == Walk(p, d, t);
      assert InBox(w, h, Walk(p, d, t));
    }
  }

  /** A coordinate between two on-map coordinates of a walk is on the map too. */
  lemma Between(a: int, d: int, t: nat, k: nat, bound: int)
    requires t <= k && 0 <= a < bound && 0 <= a + k * d < bound
    ensures 0 <= a + t * d < bound
  {
    if d >= 0 {
      MulMonotone(t, k, d);
    } else {
      MulMonotone(t, k, -d);
    }
  }

  /** A walk whose start and `k - 1`-th step are on the map was on it throughout. */
  lemma WalkStaysOn(w: int, h: int, p: Position, d: Position, k: nat)
    requires k > 0 ==> InBox(w, h, p) && InBox(w, h, Walk(p, d, k - 1))
    ensures forall t: nat :: t < k ==> InBox(w, h, Walk(p, d, t))
  {
    if k > 0 {
      WalkIsStep(p, d, k - 1);
      forall t: nat | t < k
        ensures InBox(w, h, Walk(p, d, t))
      {
        WalkIsStep(p, d, t);
        Between(p.0, d.0, t, k - 1, w);
        Between(p.1, d.1, t, k - 1, h);
      }
    }
  }

  /**
   * The map is a rectangle, so a walk from a position on it that is on the
   * map after `k` steps never left it before: the ray is every on-map
   * position `p + k·d`.
   */
  lemma RayHas(w: int, h: int, p: Position, d: Position, q: Position)
    requires InBox(w, h, p)
    ensures q in RayCells(w, h, p, d) <==> InBox(w, h, q) && exists k: nat :: q == StepPos(p, d, k)
  {
    if q in RayCells(w, h, p, d) {
      var k: nat :| q == Walk(p, d, k);
      WalkIsStep(p, d, k);
    }
    if InBox(w, h, q) && exists k: nat :: q == StepPos(p, d, k) {
      var k: nat :| q == StepPos(p, d, k);
      WalkIsStep(p, d, k);
      forall t: nat | t <= k
        ensures InBox(w, h, Walk(p, d, t))
      {
        WalkIsStep(p, d, t);
        Between(p.0, d.0, t, k, w);
        Between(p.1, d.1, t, k, h);
      }
    }
  }

  /**
   * What part two flags for the pair `a`, `o`: both antennae and the walks
   * from `a` away from `o` and towards it.
   */
  ghost function LineCells(w: int, h: int, a: Antenna, o: Antenna): set<Position>
  {
    {Pos(a), Pos(o)} + RayCells(w, h, Pos(a), Sub(Pos(a), Pos(o))) + RayCells(w, h, Pos(a), Sub(Pos(o), Pos(a)))
  }

  /** Walking `k` steps of `-d` is walking `-k` steps of `d`. */
  lemma StepBack(p: Position, d: Position, k: int)
    ensures StepPos(p, (-d.0, -d.1), k) == StepPos(p, d, -k)
  {
  }

  /** The positions on the map at a whole number of steps `a - o` from `a`. */
  lemma LineHas(w: int, h: int, a: Antenna, o: Antenna, q: Position)
    requires InBox(w, h, Pos(a)) && InBox(w, h, Pos(o))
    ensures q in LineCells(w, h, a, o) <==> InBox(w, h, q) && exists k: int :: q == StepPos(Pos(a), Sub(Pos(a), Pos(o)), k)
  {
    var d, e := Sub(Pos(a), Pos(o)), Sub(Pos(o), Pos(a));
    assert e == (-d.0, -d.1);
    RayHas(w, h, Pos(a), d, q);
    RayHas(w, h, Pos(a), e, q);
    if q in LineCells(w, h, a, o) {
      if q == Pos(a) {
        assert q == StepPos(Pos(a), d, 0);
      } else if q == Pos(o) {
        assert q == StepPos(Pos(a), d, -1);
      } else if q in RayCells(w, h, Pos(a), e) {
        var k: nat :| q == StepPos(Pos(a), e, k);
        StepBack(Pos(a), d, k);
      }
    }
    if InBox(w, h, q) && exists k: int :: q == StepPos(Pos(a), d, k) {
      var k: int :| q == StepPos(Pos(a), d, k);
      if k < 0 {
        StepBack(Pos(a), d, -k);
        assert q in RayCells(w, h, Pos(a), e);
      } else {
        assert q in RayCells(w, h, Pos(a), d);
      }
    }
  }

  /** The union of a sequence of sets. */
  function Union(sets: seq<set<Position>>): set<Position>
  {
    if |sets| == 0 then {} else Union(sets[..|sets| - 1]) + sets[|sets| - 1]
  }

  lemma {:induction false} UnionHas(sets: seq<set<Position>>, q: Position)
    ensures q in Union(sets) <==> exists j :: 0 <= j < |sets| && q in sets[j]
  {
    if |sets| > 0 {
      var init := sets[..|sets| - 1];
      UnionHas(init, q);
      if q in Union(init) {
        var j :| 0 <= j < |init| && q in init[j];
        assert sets[j] == init[j];
      }
      if exists j :: 0 <= j < |sets| && q in sets[j] {
        var j :| 0 <= j < |sets| && q in sets[j];
        if j < |init| {
          assert init[j] == sets[j];
        }
      }
    }
  }

  /** `LineCells` on a `w` by `h` map, as a value. */
  ghost function LinesOn(w: int, h: int): (Antenna, Antenna) -> set<Position>
  {
    (a, o) => LineCells(w, h, a, o)
  }

  /** `line(a, o)` for each antenna `o` of `os`, empty for another frequency. */
  ghost function LinesWith(line: (Antenna, Antenna) -> set<Position>, a: Antenna, os: seq<Antenna>): (r: seq<set<Position>>)
    ensures |r| == |os|
  {
    seq(|os|, j requires 0 <= j < |os| => if os[j].name == a.name then line(a, os[j]) else {})
  }

  /** The lines through `a` and each antenna of `os` of its frequency. */
  ghost function Partners(line: (Antenna, Antenna) -> set<Position>, a: Antenna, os: seq<Antenna>): set<Position>
  {
    Union(LinesWith(line, a, os))
  }

  lemma PartnersHas(line: (Antenna, Antenna) -> set<Position>, a: Antenna, os: seq<Antenna>, q: Position)
    ensures q in Partners(line, a, os) <==> exists j :: 0 <= j < |os| && os[j].name == a.name && q in line(a, os[j])
  {
    var sets := LinesWith(line, a, os);
    UnionHas(sets, q);
    if q in Partners(line, a, os) {
      var j :| 0 <= j < |sets| && q in sets[j];
      assert os[j].name == a.name && q in line(a, os[j]);
    }
    if exists j :: 0 <= j < |os| && os[j].name == a.name && q in line(a, os[j]) {
      var j :| 0 <= j < |os| && os[j].name == a.name && q in line(a, os[j]);
      assert q in sets[j];
    }
  }

  /** One more partner adds its line. */
  lemma PartnersSnoc(line: (Antenna, Antenna) -> set<Position>, a: Antenna, os: seq<Antenna>, o: Antenna)
    ensures Partners(line, a, os + [o]) == Partners(line, a, os) + if o.name == a.name then line(a, o) else {}
  {
    assert LinesWith(line, a, os + [o])[..|os|] == LinesWith(line, a, os);
  }

  /** The loop over `rest` adds the line through `a` and `rest[k]`, if of the same frequency. */
  lemma PartnersNext(w: int, h: int, a: Antenna, rest: seq<Antenna>, k: nat)
    requires k < |rest|
    ensures Partners(LinesOn(w, h), a, rest[..k + 1])
      == Partners(LinesOn(w, h), a, rest[..k]) + if rest[k].name == a.name then LineCells(w, h, a, rest[k]) else {}
  {
    assert rest[..k + 1] == rest[..k] + [rest[k]];
    PartnersSnoc(LinesOn(w, h), a, rest[..k], rest[k]);
  }

  /** The loop starts with no lines. */
  lemma PartnersNone(w: int, h: int, a: Antenna)
    ensures Partners(LinesOn(w, h), a, []) == {}
  {
    assert LinesWith(LinesOn(w, h), a, []) == [];
  }

  /** The positions one pair flags, in the order `compute_antinodes_recursive` flags them. */
  lemma LineInSteps(w: int, h: int, a: Antenna, o: Antenna, dx: int, dy: int, ex: int, ey: int)
    requires (dx, dy) == Sub(Pos(a), Pos(o)) && (ex, ey) == Sub(Pos(o), Pos(a))
    ensures {Pos(a)} + {Pos(o)} + RayCells(w, h, Pos(a), (dx, dy)) + RayCells(w, h, Pos(a), (ex, ey)) == LineCells(w, h, a, o)
  {
    assert {Pos(a)} + {Pos(o)} == {Pos(a), Pos(o)};
  }

  /**
   * What `compute_antinodes_recursive(a, rest)` flags: the lines through `a`
   * and each antenna of `rest` of its frequency, then recursively those of
   * `rest[0]` and `rest[1..]`.
   */
  ghost function PairCells(w: int, h: int, a: Antenna, rest: seq<Antenna>): set<Position>
    decreases |rest|
  {
    if |rest| == 0 then {} else Partners(LinesOn(w, h), a, rest) + PairCells(w, h, rest[0], rest[1..])
  }

  /** Antennae of the same frequency stand on different positions. */
  predicate Apart(ants: seq<Antenna>)
  {
    forall i, j :: 0 <= i < j < |ants| && ants[i].name == ants[j].name ==> Pos(ants[i]) != Pos(ants[j])
  }

  predicate AllInBox(w: int, h: int, ants: seq<Antenna>)
  {
    forall i :: 0 <= i < |ants| ==> InBox(w, h, Pos(ants[i]))
  }

  /**
   * Part two's answer: the positions on the map in line with two antennae
   * of the same frequency, a whole number of their differences away from
   * the first.
   */
  ghost predicate Collinear(ants: seq<Antenna>, q: Position)
  {
    exists i, j, k: int :: 0 <= i < j < |ants| && ants[i].name == ants[j].name
      && q == StepPos(Pos(ants[i]), Sub(Pos(ants[i]), Pos(ants[j])), k)
  }

  ghost function CollinearCells(w: int, h: int, ants: seq<Antenna>): set<Position>
  {
    set x, y | 0 <= x < w && 0 <= y < h && Collinear(ants, (x, y)) :: (x, y)
  }

  /** `q` is in line with the first antenna and a later one of its frequency. */
  ghost predicate HeadCollinear(ants: seq<Antenna>, q: Position)
    requires |ants| >= 1
  {
    exists j, k: int :: 0 < j < |ants| && ants[0].name == ants[j].name
      && q == StepPos(Pos(ants[0]), Sub(Pos(ants[0]), Pos(ants[j])), k)
  }

  /** A pair either starts at the first antenna or lies in the rest. */
  lemma CollinearSplit(ants: seq<Antenna>, q: Position)
    requires |ants| >= 1
    ensures Collinear(ants, q) <==> HeadCollinear(ants, q) || Collinear(ants[1..], q)
  {
    var rest := ants[1..];
    if Collinear(ants, q) {
      var i, j, k: int :| 0 <= i < j < |ants| && ants[i].name == ants[j].name
        && q == StepPos(Pos(ants[i]), Sub(Pos(ants[i]), Pos(ants[j])), k);
      if i > 0 {
        assert rest[i - 1] == ants[i] && rest[j - 1] == ants[j];
      }
    }
    if Collinear(rest, q) {
      var i, j, k: int :| 0 <= i < j < |rest| && rest[i].name == rest[j].name
        && q == StepPos(Pos(rest[i]), Sub(Pos(rest[i]), Pos(rest[j])), k);
      assert ants[i + 1] == rest[i] && ants[j + 1] == rest[j];
    }
  }

  /** The lines one level of the recursion flags are those through its first antenna. */
  lemma PartnersCollinear(w: int, h: int, ants: seq<Antenna>, q: Position)
    requires |ants| >= 1 && AllInBox(w, h, ants) && InBox(w, h, q)
    ensures q in Partners(LinesOn(w, h), ants[0], ants[1..]) <==> HeadCollinear(ants, q)
  {
    var a, rest := ants[0], ants[1..];
    PartnersHas(LinesOn(w, h), a, rest, q);
    if q in Partners(LinesOn(w, h), a, rest) {
      var j :| 0 <= j < |rest| && rest[j].name == a.name && q in LinesOn(w, h)(a, rest[j]);
      LineHas(w, h, a, rest[j], q);
      assert ants[j + 1] == rest[j];
    }
    if HeadCollinear(ants, q) {
      var j, k: int :| 0 < j < |ants| && ants[0].name == ants[j].name
        && q == StepPos(Pos(ants[0]), Sub(Pos(ants[0]), Pos(ants[j])), k);
      assert rest[j - 1] == ants[j];
      LineHas(w, h, a, rest[j - 1], q);
      assert q in LinesOn(w, h)(a, rest[j - 1]);
    }
  }

  /** The recursion over the antennae flags exactly the positions in line with a pair. */
  lemma {:induction false} PairCellsHas(w: int, h: int, ants: seq<Antenna>, q: Position)
    requires |ants| >= 1 && AllInBox(w, h, ants) && InBox(w, h, q)
    ensures q in PairCells(w, h, ants[0], ants[1..]) <==> Collinear(ants, q)
    decreases |ants|
  {
    CollinearSplit(ants, q);
    if |ants| > 1 {
      PairCellsHas(w, h, ants[1..], q);
      PartnersCollinear(w, h, ants, q);
    } else {
      assert !HeadCollinear(ants, q);
      assert !Collinear(ants[1..], q);
    }
  }

  /** On a map with no flags set, the flagged positions are those of `cells` on the map. */
  lemma MarkedFresh(m: NodeMap, cells: set<Position>)
    requires forall y, x :: 0 <= y < |m| && 0 <= x < |m[y]| ==> !m[y][x].IsAntinode()
    ensures Marked(MarkAll(m, cells)) == set y, x | 0 <= y < |m| && 0 <= x < |m[y]| && (x, y) in cells :: (x, y)
  {
    forall y, x | 0 <= y < |m| && 0 <= x < |m[y]|
      ensures MarkAll(m, cells)[y][x].IsAntinode() <==> (x, y) in cells
    {
      MarkAllAt(m, cells, y, x);
    }
  }

  // ---------------------------------------------------------------------------
  // The city map
  // ---------------------------------------------------------------------------

  /** The map as `new` reads it from the input. */
  function MapOf(input: string): NodeMap
    requires LoadGrid(input).Some?
  {
    NodesOf(LoadGrid(input).value)
  }

  class CityMap {
    var antennae: seq<Antenna>
    var nodeMap: NodeMap

    /**
     * `new`: load the rows (as day 4 does), make a node of each character
     * and collect the antennae. The source panics on an empty input, on
     * ragged rows and on a character other than `.`, a letter or a digit.
     */
    constructor (input: string)
      requires LoadGrid(input).Some? && MapChars(LoadGrid(input).value)
      ensures nodeMap == MapOf(input)
      ensures antennae == AntennaeOf(nodeMap)
    {
      var charMap := LoadGrid(input).value;
      ghost var target := MapOf(input);
      var nodes: NodeMap := [];
      for y := 0 to |charMap|
        invariant |nodes| == y && forall y' :: 0 <= y' < y ==> nodes[y'] == target[y']
      {
        nodes := nodes + [[]];
        for x := 0 to |charMap[y]|
          invariant |nodes| == y + 1 && forall y' :: 0 <= y' < y ==> nodes[y'] == target[y']
          invariant nodes[y] == target[y][..x]
        {
          var character := charMap[y][x];
          var newNode := NodeOf(character);
          nodes := nodes[y := nodes[y] + [newNode]];
        }
      }
      assert nodes == target;
      var collected := CollectAntennae(nodes);
      antennae := collected;
      nodeMap := nodes;
    }

    /**
     * `compute_distances`: push onto every node, in row-major order, its
     * offset to each antenna.
     */
    method ComputeDistances()
      modifies this
      ensures antennae == old(antennae)
      ensures nodeMap == WithDistances(old(nodeMap), antennae)
    {
      ghost var m0 := nodeMap;
      ghost var target := WithDistances(m0, antennae);
      UpdateStart(m0, target);
      for y := 0 to |nodeMap|
        invariant antennae == old(antennae)
        invariant UpdatedUpTo(nodeMap, m0, target, y, 0)
      {
        for x := 0 to |nodeMap[y]|
          invariant antennae == old(antennae)
          invariant UpdatedUpTo(nodeMap, m0, target, y, x)
        {
          var node := AppendDistances(nodeMap[y][x], antennae, x, y);
          UpdateStep(nodeMap, m0, target, y, x);
          nodeMap := nodeMap[y := nodeMap[y][x := node]];
        }
        UpdateNextRow(nodeMap, m0, target, y);
      }
      UpdateDone(nodeMap, m0, target);
    }

    /**
     * `compute_antinodes_part_one`: compute the offsets, then flag every
     * node by whether two of its offsets are doubled. Each node must end up
     * with an offset, or `compute_antinode` panics.
     */
    method ComputeAntinodesPartOne()
      requires forall y, x :: 0 <= y < |nodeMap| && 0 <= x < |nodeMap[y]| ==>
                 |nodeMap[y][x].antennaeDistances| + |antennae| >= 1
      modifies this
      ensures antennae == old(antennae)
      ensures nodeMap == Classified(WithDistances(old(nodeMap), antennae))
    {
      ComputeDistances();
      ghost var m0 := nodeMap;
      ghost var target := Classified(m0);
      UpdateStart(m0, target);
      for y := 0 to |nodeMap|
        invariant antennae == old(antennae)
        invariant UpdatedUpTo(nodeMap, m0, target, y, 0)
      {
        for x := 0 to |nodeMap[y]|
          invariant antennae == old(antennae)
          invariant UpdatedUpTo(nodeMap, m0, target, y, x)
        {
          var node := ComputeAntinode(nodeMap[y][x]);
          UpdateStep(nodeMap, m0, target, y, x);
          nodeMap := nodeMap[y := nodeMap[y][x := node]];
        }
        UpdateNextRow(nodeMap, m0, target, y);
      }
      UpdateDone(nodeMap, m0, target);
    }

    /**
     * `mark_antinodes`: walk from the antenna in steps of the offset,
     * flagging each node, until the walk leaves the map. The source loops
     * for ever on a zero offset; it is only called between antennae on
     * different positions.
     */
    method MarkAntinodes(antenna: Antenna, xDist: int, yDist: int)
      modifies this
      requires Shaped(nodeMap) && (xDist, yDist) != (0, 0)
      ensures antennae == old(antennae)
      ensures nodeMap == MarkAll(old(nodeMap), RayCells(|old(nodeMap)[0]|, |old(nodeMap)|, Pos(antenna), (xDist, yDist)))
    {
      var currX, currY := antenna.xPosition, antenna.yPosition;
      var maxX, maxY := |nodeMap[0]|, |nodeMap|;
      var m := nodeMap;
      ghost var p, d := Pos(antenna), (xDist, yDist);
      ghost var k: nat := 0;
      ghost var seen: set<Position> := {};
      while 0 <= currX < maxX && 0 <= currY < maxY
        invariant currX == Walk(p, d, k).0 && currY == Walk(p, d, k).1
        invariant k > 0 ==> InBox(maxX, maxY, p) && InBox(maxX, maxY, Walk(p, d, k - 1))
        invariant seen == FirstSteps(p, d, k)
        invariant Flagged(m, nodeMap, seen)
        modifies {}
        decreases if xDist > 0 then maxX - currX else if xDist < 0 then currX + 1
          else if yDist > 0 then maxY - currY else currY + 1
      {
        FlaggedStep(m, nodeMap, seen, (currX, currY));
        m := SetAntinode(m, (currX, currY));
        seen := seen + {(currX, currY)};
        currX, currY := currX + xDist, currY + yDist;
        k := k + 1;
      }
      WalkStaysOn(maxX, maxY, p, d, k);
      RayIsFirstSteps(maxX, maxY, p, d, k);
      FlaggedIsMarkAll(m, nodeMap, seen);
      nodeMap := m;
    }

    /**
     * The body of the loop of `compute_antinodes_recursive` for one pair of
     * the same frequency: flag both antennae, then walk from the first away
     * from the second and towards it.
     */
    method MarkPair(antenna: Antenna, other: Antenna)
      modifies this
      requires Shaped(nodeMap) && InMap(nodeMap, Pos(antenna)) && InMap(nodeMap, Pos(other))
      requires Pos(antenna) != Pos(other)
      ensures antennae == old(antennae)
      ensures nodeMap == MarkAll(old(nodeMap), LineCells(|old(nodeMap)[0]|, |old(nodeMap)|, antenna, other))
    {
      ghost var m0 := nodeMap;
      var xDist := antenna.xPosition - other.xPosition;
      var yDist := antenna.yPosition - other.yPosition;
      var backX, backY := -xDist, -yDist;
      SetKeeps(nodeMap, Pos(antenna), Pos(other));
      nodeMap := SetAntinode(nodeMap, Pos(antenna));
      SetKeeps(nodeMap, Pos(other), Pos(other));
      nodeMap := SetAntinode(nodeMap, Pos(other));
      ghost var n0 := nodeMap;
      MarkAntinodes(antenna, xDist, yDist);
      ghost var n1 := nodeMap;
      MarkShaped(n0, RayCells(|n0[0]|, |n0|, Pos(antenna), (xDist, yDist)));
      MarkAntinodes(antenna, backX, backY);
      PairSteps(m0, antenna, other, n0, n1, nodeMap, xDist, yDist, backX, backY);
    }

    /**
     * `compute_antinodes_recursive`: for each later antenna of the same
     * frequency, flag both antennae and the whole line through them; then
     * go on with the next antenna and those after it.
     */
    method ComputeAntinodesRecursive(antenna: Antenna, rest: seq<Antenna>)
      modifies this
      requires Shaped(nodeMap)
      requires AllInBox(|nodeMap[0]|, |nodeMap|, [antenna] + rest) && Apart([antenna] + rest)
      ensures antennae == old(antennae)
      ensures nodeMap == MarkAll(old(nodeMap), PairCells(|old(nodeMap)[0]|, |old(nodeMap)|, antenna, rest))
      decreases |rest|
    {
      if |rest| == 0 {
        MarkNothing(nodeMap);
        return;
      }
      ghost var m0 := nodeMap;
      ghost var w, h := |nodeMap[0]|, |nodeMap|;
      assert antenna == ([antenna] + rest)[0];
      MarkNothing(m0);
      PartnersNone(w, h, antenna);
      assert rest[..0] == [];
      for k := 0 to |rest|
        invariant antennae == old(antennae)
        invariant nodeMap == MarkAll(m0, Partners(LinesOn(w, h), antenna, rest[..k]))
      {
        var other := rest[k];
        ghost var cells := Partners(LinesOn(w, h), antenna, rest[..k]);
        PartnersNext(w, h, antenna, rest, k);
        if other.name == antenna.name {
          assert other == ([antenna] + rest)[k + 1];
          MarkPair(antenna, other);
          MarkTwice(m0, cells, LineCells(w, h, antenna, other));
        } else {
          assert cells + {} == cells;
        }
      }
      assert rest[..|rest|] == rest;
      ghost var here := Partners(LinesOn(w, h), antenna, rest);
      assert [rest[0]] + rest[1..] == rest;
      assert forall i :: 0 <= i < |rest| ==> rest[i] == ([antenna] + rest)[i + 1];
      ComputeAntinodesRecursive(rest[0], rest[1..]);
      MarkTwice(m0, here, PairCells(w, h, rest[0], rest[1..]));
    }

    /** `compute_antinodes_part_two`: start the recursion at the first antenna. */
    method ComputeAntinodesPartTwo()
      modifies this
      requires Shaped(nodeMap) && |antennae| >= 1
      requires AllInBox(|nodeMap[0]|, |nodeMap|, antennae) && Apart(antennae)
      ensures antennae == old(antennae)
      ensures nodeMap == MarkAll(old(nodeMap), PairCells(|old(nodeMap)[0]|, |old(nodeMap)|, antennae[0], antennae[1..]))
    {
      var ants := antennae;
      assert [ants[0]] + ants[1..] == ants;
      ComputeAntinodesRecursive(ants[0], ants[1..]);
    }

    /** `count_antinodes`: the number of nodes flagged as antinodes. */
    method CountAntinodes() returns (count: nat)
      ensures count == |Marked(nodeMap)|
    {
      count := 0;
      for y := 0 to |nodeMap|
        invariant count == |MarkedBefore(nodeMap, y, 0)|
      {
        for x := 0 to |nodeMap[y]|
          invariant count == |MarkedBefore(nodeMap, y, x)|
        {
          MarkedStep(nodeMap, y, x);
          if nodeMap[y][x].IsAntinode() {
            count := count + 1;
          }
        }
        MarkedNextRow(nodeMap, y);
      }
      MarkedAll(nodeMap);
    }
  }

  /**
   * `part_one`: the number of antinodes of the map. The source panics when
   * the map has no antenna (a node with no offsets).
   */
  method PartOne(input: string) returns (r: Option<nat>)
    requires LoadGrid(input).Some? && MapChars(LoadGrid(input).value)
    requires |AntennaeOf(MapOf(input))| >= 1
    ensures r == Some(|AntinodeCells(MapOf(input), AntennaeOf(MapOf(input)))|)
  {
    var city := new CityMap(input);
    city.ComputeAntinodesPartOne();
    var count := city.CountAntinodes();
    FlaggedAreAntinodes(LoadGrid(input).value, city.antennae);
    r := Some(count);
  }
  /** A loaded map is a rectangle with a first row. */
  lemma MapShaped(input: string)
    requires LoadGrid(input).Some?
    ensures Shaped(MapOf(input)) && |MapOf(input)[0]| == |LoadGrid(input).value[0]|
    ensures forall y, x :: 0 <= y < |MapOf(input)| && 0 <= x < |MapOf(input)[y]| ==> !MapOf(input)[y][x].IsAntinode()
  {
  }

  /** Antennae listed row by row stand on different positions, each on the map. */
  lemma RowMajorApart(m: NodeMap)
    ensures Apart(AntennaeOf(m))
    ensures Shaped(m) ==> AllInBox(|m[0]|, |m|, AntennaeOf(m))
  {
    var ants := AntennaeOf(m);
    forall i | 0 <= i < |ants|
      ensures InMap(m, Pos(ants[i]))
    {
      assert ants[i] in ants;
    }
  }

  /**
   * `part_two`: the number of positions on the map in line with two
   * antennae of the same frequency. The source panics when the map has no
   * antenna.
   */
  method PartTwo(input: string) returns (r: Option<nat>)
    requires LoadGrid(input).Some? && MapChars(LoadGrid(input).value)
    requires |AntennaeOf(MapOf(input))| >= 1
    ensures r == Some(|CollinearCells(|LoadGrid(input).value[0]|, |LoadGrid(input).value|, AntennaeOf(MapOf(input)))|)
  {
    var city := new CityMap(input);
    MapShaped(input);
    RowMajorApart(city.nodeMap);
    PartTwoCells(city.nodeMap, city.antennae);
    city.ComputeAntinodesPartTwo();
    var count := city.CountAntinodes();
    r := Some(count);
  }

  /**
   * On a map with nothing flagged, flagging the pairs' lines flags exactly
   * the positions in line with two antennae of one frequency.
   */
  lemma PartTwoCells(m: NodeMap, ants: seq<Antenna>)
    requires Shaped(m) && |ants| >= 1 && AllInBox(|m[0]|, |m|, ants)
    requires forall y, x :: 0 <= y < |m| && 0 <= x < |m[y]| ==> !m[y][x].IsAntinode()
    ensures Marked(MarkAll(m, PairCells(|m[0]|, |m|, ants[0], ants[1..]))) == CollinearCells(|m[0]|, |m|, ants)
  {
    var w, h := |m[0]|, |m|;
    var cells := PairCells(w, h, ants[0], ants[1..]);
    MarkedFresh(m, cells);
    forall q | InBox(w, h, q)
      ensures q in cells <==> Collinear(ants, q)
    {
      PairCellsHas(w, h, ants, q);
    }
  }
}
