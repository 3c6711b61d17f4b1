/**
 * Day 10: a topographic map of digit heights. A hiking trail starts at a
 * `0`, climbs by exactly one at each orthogonal step and ends at a `9`; the
 * score of a trailhead is the number of distinct `9`s it reaches, and part
 * one sums the scores of all trailheads.
 *
 * The width of the map is the length of its first row, as in the source;
 * it indexes every row up to that width, so the model requires every row
 * to be at least that wide.
 */
module Day10 {
  import opened Wrappers
  import opened Text

  datatype Position = Position(x: nat, y: nat)

  /** The four directions, in the order `find_adjacent` looks at them. */
  datatype Side = West | North | South | East

  /** The heights, row by row. */
  type TopoMap = seq<seq<char>>

  function MapWidth(m: TopoMap): nat
  {
    if |m| == 0 then 0 else |m[0]|
  }

  /** No row is shorter than the first. */
  predicate Wide(m: TopoMap)
  {
    forall y :: 0 <= y < |m| ==> |m[y]| >= MapWidth(m)
  }

  predicate InMap(m: TopoMap, p: Position)
  {
    p.y < |m| && p.x < MapWidth(m)
  }

  /** The character at `p`; a space off the rows. */
  function At(m: TopoMap, p: Position): char
  {
    if p.y < |m| && p.x < |m[p.y]| then m[p.y][p.x] else ' '
  }

  /** `q` is one orthogonal step from `p`. */
  predicate Neighbours(p: Position, q: Position)
  {
    (p.x == q.x && (p.y == q.y + 1 || q.y == p.y + 1)) || (p.y == q.y && (p.x == q.x + 1 || q.x == p.x + 1))
  }

  /** The neighbour across `d`, if it is on the map. */
  function Step(m: TopoMap, p: Position, d: Side): (r: Option<Position>)
    requires InMap(m, p)
    ensures r.Some? ==> InMap(m, r.value) && Neighbours(p, r.value)
  {
    match d
    case West => if p.x > 0 then Some(Position(p.x - 1, p.y)) else None
    case North => if p.y > 0 then Some(Position(p.x, p.y - 1)) else None
    case South => if p.y < |m| - 1 then Some(Position(p.x, p.y + 1)) else None
    case East => if p.x < MapWidth(m) - 1 then Some(Position(p.x + 1, p.y)) else None
  }

  /** Every neighbour on the map lies across one of the four sides. */
  lemma StepCovers(m: TopoMap, p: Position, q: Position)
    requires InMap(m, p) && InMap(m, q) && Neighbours(p, q)
    ensures Step(m, p, SideOf(p, q)) == Some(q)
  {
  }

  /** The side of `p` on which its neighbour `q` lies. */
  function SideOf(p: Position, q: Position): Side
  {
    if q.x < p.x then West else if q.y < p.y then North else if q.y > p.y then South else East
  }

  /** The position of a side in the order west, north, south, east. */
  function Rank(d: Side): nat
  {
    match d
    case West => 0
    case North => 1
    case South => 2
    case East => 3
  }

  /** One direction of `find_adjacent`: the neighbour across `d` if it holds `value`. */
  function Toward(m: TopoMap, curr: Position, value: char, d: Side): seq<Position>
    requires InMap(m, curr)
  {
    match Step(m, curr, d)
    case Some(q) => if At(m, q) == value then [q] else []
    case None => []
  }

  /** `Toward` holds the neighbour across `d` exactly when it holds `value`. */
  lemma TowardFacts(m: TopoMap, curr: Position, value: char, d: Side)
    requires InMap(m, curr)
    ensures var r := Toward(m, curr, value, d);
      (forall q :: q in r ==> InMap(m, q) && Neighbours(curr, q) && At(m, q) == value && SideOf(curr, q) == d) &&
      (Step(m, curr, d).Some? && At(m, Step(m, curr, d).value) == value ==> Step(m, curr, d).value in r) &&
      |r| <= 1
  {
  }

  /**
   * `find_adjacent`: the neighbours of `curr` on the map holding `value`,
   * west, north, south, east.
   */
  function FindAdjacent(m: TopoMap, curr: Position, value: char): seq<Position>
    requires InMap(m, curr)
  {
    Toward(m, curr, value, West) + Toward(m, curr, value, North) + Toward(m, curr, value, South) + Toward(m, curr, value, East)
  }

  /** Everything `find_adjacent` reports is a neighbour on the map holding `value`. */
  lemma FindAdjacentSound(m: TopoMap, curr: Position, value: char)
    requires InMap(m, curr)
    ensures forall q :: q in FindAdjacent(m, curr, value) ==> InMap(m, q) && Neighbours(curr, q) && At(m, q) == value
  {
    TowardFacts(m, curr, value, West);
    TowardFacts(m, curr, value, North);
    TowardFacts(m, curr, value, South);
    TowardFacts(m, curr, value, East);
  }

  /** The positions of `r` lie on sides of `curr` strictly in the order west, north, south, east. */
  predicate InSideOrder(curr: Position, r: seq<Position>)
  {
    forall i, j :: 0 <= i < j < |r| ==> Rank(SideOf(curr, r[i])) < Rank(SideOf(curr, r[j]))
  }

  /** `find_adjacent` reports the neighbours in the order west, north, south, east. */
  lemma FindAdjacentOrder(m: TopoMap, curr: Position, value: char)
    requires InMap(m, curr)
    ensures InSideOrder(curr, FindAdjacent(m, curr, value))
  {
    var w, n, s, e := Toward(m, curr, value, West), Toward(m, curr, value, North), Toward(m, curr, value, South), Toward(m, curr, value, East);
    TowardFacts(m, curr, value, West);
    TowardFacts(m, curr, value, North);
    TowardFacts(m, curr, value, South);
    TowardFacts(m, curr, value, East);
    OrderConcat(curr, w, n, 1);
    OrderConcat(curr, w + n, s, 2);
    OrderConcat(curr, w + n + s, e, 3);
  }

  /** Appending positions of one side, ranked above everything before, keeps the order. */
  lemma OrderConcat(curr: Position, a: seq<Position>, b: seq<Position>, rank: nat)
    requires InSideOrder(curr, a) && |b| <= 1
    requires forall q :: q in a ==> Rank(SideOf(curr, q)) < rank
    requires forall q :: q in b ==> Rank(SideOf(curr, q)) == rank
    ensures InSideOrder(curr, a + b)
    ensures forall q :: q in a + b ==> Rank(SideOf(curr, q)) <= rank
  {
    var r := a + b;
    forall i, j | 0 <= i < j < |r|
      ensures Rank(SideOf(curr, r[i])) < Rank(SideOf(curr, r[j]))
    {
      if j < |a| {
        assert r[i] == a[i] && r[j] == a[j];
      } else {
        assert r[i] == a[i] && a[i] in a;
        assert r[j] == b[0] && b[0] in b;
      }
    }
  }

  /** Every neighbour holding `value` is found. */
  lemma FindAdjacentComplete(m: TopoMap, curr: Position, value: char, q: Position)
    requires InMap(m, curr) && InMap(m, q) && Neighbours(curr, q) && At(m, q) == value
    ensures q in FindAdjacent(m, curr, value)
  {
    StepCovers(m, curr, q);
    TowardFacts(m, curr, value, SideOf(curr, q));
    assert q in Toward(m, curr, value, SideOf(curr, q));
  }

  // ---------------------------------------------------------------------------
  // Trail ends
  // ---------------------------------------------------------------------------

  /** The height at `p`. */
  function Height(m: TopoMap, p: Position): nat
    requires IsDigit(At(m, p))
  {
    DigitValue(At(m, p))
  }

  /**
   * What `find_ends_recursive` collects from `p`: `p` itself at height 9,
   * otherwise the ends reachable from the neighbours one higher.
   */
  function Ends(m: TopoMap, p: Position): set<Position>
    requires InMap(m, p) && IsDigit(At(m, p))
    decreases 9 - Height(m, p), 0, 0
  {
    if At(m, p) == '9' then {p}
    else UpAtLevel(m, p); EndsAmong(m, Up(m, p), Height(m, p) + 1)
  }

  /** The neighbours of `p` one level higher, as `find_adjacent` reports them. */
  function Up(m: TopoMap, p: Position): seq<Position>
    requires InMap(m, p) && IsDigit(At(m, p)) && At(m, p) != '9'
  {
    FindAdjacent(m, p, DigitChar(Height(m, p) + 1))
  }

  /** `Up` reports neighbours of `p`, all one level higher. */
  lemma UpAtLevel(m: TopoMap, p: Position)
    requires InMap(m, p) && IsDigit(At(m, p)) && At(m, p) != '9'
    ensures AtLevel(m, Up(m, p), Height(m, p) + 1)
    ensures forall i :: 0 <= i < |Up(m, p)| ==> Neighbours(p, Up(m, p)[i])
  {
    var r := Up(m, p);
    FindAdjacentSound(m, p, DigitChar(Height(m, p) + 1));
    assert forall i :: 0 <= i < |r| ==> r[i] in r;
  }

  /** Every position of `ps` is on the map at height `level`. */
  predicate AtLevel(m: TopoMap, ps: seq<Position>, level: nat)
  {
    level <= 9 && forall i :: 0 <= i < |ps| ==> InMap(m, ps[i]) && IsDigit(At(m, ps[i])) && Height(m, ps[i]) == level
  }

  /** The ends reachable from the positions `ps`, all at height `level`. */
  function EndsAmong(m: TopoMap, ps: seq<Position>, level: nat): set<Position>
    requires AtLevel(m, ps, level)
    decreases 9 - level, 1, |ps|
  {
    if ps == [] then {} else EndsAmong(m, ps[..|ps| - 1], level) + Ends(m, ps[|ps| - 1])
  }

  /**
   * A climb: a walk over the map by orthogonal steps, each one exactly one
   * higher than the last.
   */
  ghost predicate Climbs(m: TopoMap, path: seq<Position>)
    decreases |path|
  {
    |path| >= 1 && InMap(m, path[0]) && IsDigit(At(m, path[0])) &&
    (|path| > 1 ==>
       Neighbours(path[0], path[1]) && IsDigit(At(m, path[1])) && Height(m, path[1]) == Height(m, path[0]) + 1 &&
       Climbs(m, path[1..]))
  }

  /** `q` is a `9` that some climb from `p` ends on. */
  ghost predicate Reaches(m: TopoMap, p: Position, q: Position)
  {
    exists path :: Climbs(m, path) && path[0] == p && path[|path| - 1] == q && At(m, q) == '9'
  }

  /** The `9`s on the map. */
  ghost function Nines(m: TopoMap): set<Position>
  {
    set x: nat, y: nat | y < |m| && x < MapWidth(m) && At(m, Position(x, y)) == '9' :: Position(x, y)
  }

  lemma {:induction false} EndsAmongHas(m: TopoMap, ps: seq<Position>, level: nat, q: Position)
    requires AtLevel(m, ps, level)
    requires q in EndsAmong(m, ps, level)
    ensures exists i :: 0 <= i < |ps| && q in Ends(m, ps[i])
    decreases |ps|
  {
    if q !in Ends(m, ps[|ps| - 1]) {
      EndsAmongHas(m, ps[..|ps| - 1], level, q);
      var i :| 0 <= i < |ps| - 1 && q in Ends(m, ps[..|ps| - 1][i]);
      assert ps[..|ps| - 1][i] == ps[i];
    }
  }

  lemma {:induction false} EndsAmongIncludes(m: TopoMap, ps: seq<Position>, level: nat, i: nat)
    requires AtLevel(m, ps, level)
    requires i < |ps|
    ensures Ends(m, ps[i]) <= EndsAmong(m, ps, level)
    decreases |ps|
  {
    if i < |ps| - 1 {
      EndsAmongIncludes(m, ps[..|ps| - 1], level, i);
      assert ps[..|ps| - 1][i] == ps[i];
    }
  }

  /** Every end found from `p` is a `9` reached by a climb from `p`. */
  lemma {:induction false} EndsSound(m: TopoMap, p: Position, q: Position) returns (path: seq<Position>)
    requires InMap(m, p) && IsDigit(At(m, p)) && q in Ends(m, p)
    ensures Climbs(m, path) && path[0] == p && path[|path| - 1] == q && At(m, q) == '9'
    decreases 9 - Height(m, p)
  {
    if At(m, p) == '9' {
      path := [p];
    } else {
      var ups := Up(m, p);
      UpAtLevel(m, p);
      EndsAmongHas(m, ups, Height(m, p) + 1, q);
      var i :| 0 <= i < |ups| && q in Ends(m, ups[i]);
      var rest := EndsSound(m, ups[i], q);
      path := [p] + rest;
      assert path[1..] == rest && path[1] == ups[i];
    }
  }

  /** The first step of a climb is to a neighbour one level up. */
  lemma ClimbStep(m: TopoMap, path: seq<Position>) returns (i: nat)
    requires Climbs(m, path) && |path| > 1
    ensures At(m, path[0]) != '9' && i < |Up(m, path[0])| && Up(m, path[0])[i] == path[1]
  {
    var p, next := path[0], path[1];
    assert Climbs(m, path[1..]) && path[1..][0] == next;
    ClimbHeight(m, path);
    UpComplete(m, p, next);
    var ups := Up(m, p);
    i :| 0 <= i < |ups| && ups[i] == next;
  }

  /** Every neighbour one level up is among those `Up` reports. */
  lemma UpComplete(m: TopoMap, p: Position, q: Position)
    requires InMap(m, p) && IsDigit(At(m, p)) && At(m, p) != '9'
    requires InMap(m, q) && Neighbours(p, q) && IsDigit(At(m, q)) && Height(m, q) == Height(m, p) + 1
    ensures q in Up(m, p)
  {
    var c := DigitChar(Height(m, p) + 1);
    assert At(m, q) == c;
    FindAdjacentComplete(m, p, c, q);
  }

  /** Every `9` some climb from `p` ends on is found. */
  lemma {:induction false} EndsComplete(m: TopoMap, path: seq<Position>)
    requires Climbs(m, path) && At(m, path[|path| - 1]) == '9'
    ensures path[|path| - 1] in Ends(m, path[0])
    decreases |path|
  {
    if |path| > 1 {
      var i := ClimbStep(m, path);
      EndsComplete(m, path[1..]);
      EndsThrough(m, path[0], i);
    }
  }

  /** The ends found from a neighbour one level up are among the ends found from `p`. */
  lemma EndsThrough(m: TopoMap, p: Position, i: nat)
    requires InMap(m, p) && IsDigit(At(m, p)) && At(m, p) != '9' && i < |Up(m, p)|
    ensures Ends(m, Up(m, p)[i]) <= Ends(m, p)
  {
    UpAtLevel(m, p);
    EndsAmongIncludes(m, Up(m, p), Height(m, p) + 1, i);
  }

  /** Heights along a climb rise by one per step, so no climb is longer than ten. */
  lemma {:induction false} ClimbHeight(m: TopoMap, path: seq<Position>)
    requires Climbs(m, path)
    ensures InMap(m, path[|path| - 1]) && IsDigit(At(m, path[|path| - 1]))
    ensures Height(m, path[0]) + |path| <= 10
    ensures Height(m, path[|path| - 1]) == Height(m, path[0]) + |path| - 1
    decreases |path|
  {
    if |path| > 1 {
      ClimbHeight(m, path[1..]);
    }
  }

  /** The ends found from `p` are exactly the `9`s reached by climbs from `p`. */
  lemma EndsAreReached(m: TopoMap, p: Position, q: Position)
    requires InMap(m, p) && IsDigit(At(m, p))
    ensures q in Ends(m, p) <==> Reaches(m, p, q)
  {
    if q in Ends(m, p) {
      var path := EndsSound(m, p, q);
    }
    if Reaches(m, p, q) {
      var path :| Climbs(m, path) && path[0] == p && path[|path| - 1] == q && At(m, q) == '9';
      EndsComplete(m, path);
    }
  }

  /** A score never exceeds the number of `9`s on the map. */
  lemma ScoreAtMostNines(m: TopoMap, p: Position)
    requires InMap(m, p) && IsDigit(At(m, p))
    ensures Ends(m, p) <= Nines(m) && |Ends(m, p)| <= |Nines(m)|
  {
    forall q | q in Ends(m, p)
      ensures q in Nines(m)
    {
      var path := EndsSound(m, p, q);
      ClimbHeight(m, path);
    }
    SubsetSize(Ends(m, p), Nines(m));
  }

  lemma SubsetSize<T>(a: set<T>, b: set<T>)
    requires a <= b
    ensures |a| <= |b|
  {
    assert b == a + (b - a);
  }

  // ---------------------------------------------------------------------------
  // Trailheads
  // ---------------------------------------------------------------------------

  /** `p` comes before `q` in row-major order. */
  predicate Before(p: Position, q: Position)
  {
    p.y < q.y || (p.y == q.y && p.x < q.x)
  }

  /** The `0`s of row `y` left of column `x`, left to right. */
  function RowZeros(m: TopoMap, y: nat, x: nat): seq<Position>
  {
    if x == 0 then []
    else RowZeros(m, y, x - 1) + (if At(m, Position(x - 1, y)) == '0' then [Position(x - 1, y)] else [])
  }

  /** The `0`s of the rows above `y`, row after row. */
  function GridZeros(m: TopoMap, y: nat): seq<Position>
  {
    if y == 0 then [] else GridZeros(m, y - 1) + RowZeros(m, y - 1, MapWidth(m))
  }

  /** `RowZeros` holds the `0`s of row `y` left of `x`. */
  lemma {:induction false} RowZerosHas(m: TopoMap, y: nat, x: nat, q: Position)
    ensures q in RowZeros(m, y, x) <==> q.y == y && q.x < x && At(m, q) == '0'
  {
    if x > 0 {
      var before, last := RowZeros(m, y, x - 1), if At(m, Position(x - 1, y)) == '0' then [Position(x - 1, y)] else [];
      RowZerosHas(m, y, x - 1, q);
      assert q in before + last <==> q in before || q in last;
    }
  }

  /** `RowZeros` lists its positions from left to right. */
  lemma {:induction false} RowZerosOrdered(m: TopoMap, y: nat, x: nat)
    ensures forall i, j :: 0 <= i < j < |RowZeros(m, y, x)| ==> RowZeros(m, y, x)[i].x < RowZeros(m, y, x)[j].x
  {
    if x > 0 {
      RowZerosOrdered(m, y, x - 1);
      var before := RowZeros(m, y, x - 1);
      forall i | 0 <= i < |before|
        ensures before[i].x < x - 1
      {
        RowZerosHas(m, y, x - 1, before[i]);
      }
    }
  }

  /** `GridZeros` holds the `0`s of the rows above `y`. */
  lemma {:induction false} GridZerosHas(m: TopoMap, y: nat, q: Position)
    ensures q in GridZeros(m, y) <==> q.y < y && q.x < MapWidth(m) && At(m, q) == '0'
  {
    if y > 0 {
      var above, row := GridZeros(m, y - 1), RowZeros(m, y - 1, MapWidth(m));
      GridZerosHas(m, y - 1, q);
      RowZerosHas(m, y - 1, MapWidth(m), q);
      if q.y < y - 1 {
        assert q !in row;
        assert q in above + row <==> q in above;
      } else if q.y == y - 1 {
        assert q !in above;
        assert q in above + row <==> q in row;
      } else {
        assert q !in above && q !in row;
      }
    }
  }

  /** `GridZeros` lists its positions in row-major order. */
  lemma {:induction false} GridZerosOrdered(m: TopoMap, y: nat)
    ensures RowMajor(GridZeros(m, y))
  {
    if y > 0 {
      GridZerosOrdered(m, y - 1);
      RowZerosOrdered(m, y - 1, MapWidth(m));
      var above, row := GridZeros(m, y - 1), RowZeros(m, y - 1, MapWidth(m));
      forall i | 0 <= i < |above|
        ensures above[i].y < y - 1
      {
        GridZerosHas(m, y - 1, above[i]);
      }
      forall j | 0 <= j < |row|
        ensures row[j].y == y - 1
      {
        RowZerosHas(m, y - 1, MapWidth(m), row[j]);
      }
      RowMajorAppend(above, row, y - 1);
    }
  }

  /** The positions of `r` are in strictly increasing row-major order. */
  predicate RowMajor(r: seq<Position>)
  {
    forall i, j :: 0 <= i < j < |r| ==> Before(r[i], r[j])
  }

  /** Rows above `y` in row-major order, then row `y` from left to right, are in row-major order. */
  lemma RowMajorAppend(above: seq<Position>, row: seq<Position>, y: nat)
    requires RowMajor(above) && forall i :: 0 <= i < |above| ==> above[i].y < y
    requires forall j :: 0 <= j < |row| ==> row[j].y == y
    requires forall i, j :: 0 <= i < j < |row| ==> row[i].x < row[j].x
    ensures RowMajor(above + row)
  {
    var r := above + row;
    forall i, j | 0 <= i < j < |r|
      ensures Before(r[i], r[j])
    {
      if j < |above| {
        assert r[i] == above[i] && r[j] == above[j];
      } else if i < |above| {
        assert r[i] == above[i] && r[j] == row[j - |above|];
      } else {
        assert r[i] == row[i - |above|] && r[j] == row[j - |above|];
      }
    }
  }

  /**
   * The trailheads: exactly the `0`s of the map, each once, in row-major
   * order (no other sequence has both properties).
   */
  function Zeros(m: TopoMap): (r: seq<Position>)
    ensures forall q :: q in r <==> InMap(m, q) && At(m, q) == '0'
    ensures RowMajor(r)
  {
    ZerosHas(m);
    GridZerosOrdered(m, |m|);
    GridZeros(m, |m|)
  }

  lemma ZerosHas(m: TopoMap)
    ensures forall q :: q in GridZeros(m, |m|) <==> InMap(m, q) && At(m, q) == '0'
  {
    forall q: Position {
      GridZerosHas(m, |m|, q);
    }
  }

  /** The second example's map. */
  const Example2: TopoMap := ["9990999", "9991999", "9992999", "6543456", "7111117", "8111118", "9111119"]

  /** A neighbour list the second example's tests expect. */
  lemma AdjacentExample()
    ensures FindAdjacent(Example2, Position(3, 3), '4') == [Position(2, 3), Position(4, 3)]
  {
    var m := Example2;
    assert m[3] == "6543456";
    assert At(m, Position(2, 3)) == '4' && At(m, Position(4, 3)) == '4';
    assert At(m, Position(3, 2)) == '2' && At(m, Position(3, 4)) == '1';
    assert Toward(m, Position(3, 3), '4', West) == [Position(2, 3)];
    assert Toward(m, Position(3, 3), '4', North) == [];
    assert Toward(m, Position(3, 3), '4', South) == [];
    assert Toward(m, Position(3, 3), '4', East) == [Position(4, 3)];
  }

  /** `find_trailheads`: scan the map row by row for `0`s. */
  method FindTrailheads(m: TopoMap) returns (r: seq<Position>)
    requires Wide(m)
    ensures r == Zeros(m)
  {
    r := [];
    var y := 0;
    while y < |m|
      invariant y <= |m|
      invariant r == GridZeros(m, y)
    {
      var row := RowTrailheads(m, y);
      r := r + row;
      y := y + 1;
    }
  }

  /** One row of `find_trailheads`: its `0`s, left to right. */
  method RowTrailheads(m: TopoMap, y: nat) returns (row: seq<Position>)
    requires Wide(m) && y < |m|
    ensures row == RowZeros(m, y, MapWidth(m))
  {
    row := [];
    var x := 0;
    while x < MapWidth(m)
      invariant x <= MapWidth(m)
      invariant row == RowZeros(m, y, x)
    {
      if m[y][x] == '0' {
        row := row + [Position(x, y)];
      }
      x := x + 1;
    }
  }

  // ---------------------------------------------------------------------------
  // Scores
  // ---------------------------------------------------------------------------

  /** A prefix of positions at one level is still at that level. */
  lemma AtLevelPrefix(m: TopoMap, ps: seq<Position>, level: nat, n: nat)
    requires AtLevel(m, ps, level) && n <= |ps|
    ensures AtLevel(m, ps[..n], level)
  {
    assert forall i :: 0 <= i < n ==> ps[..n][i] == ps[i];
  }

  /**
   * `find_ends_recursive`: add to `found` every `9` reachable from `curr`,
   * a `9` itself or, otherwise, those reachable through each neighbour one
   * level up in turn.
   */
  method FindEndsRecursive(m: TopoMap, curr: Position, found: set<Position>) returns (r: set<Position>)
    requires InMap(m, curr) && IsDigit(At(m, curr))
    ensures r == found + Ends(m, curr)
    decreases 9 - Height(m, curr), 0
  {
    var value := m[curr.y][curr.x];
    assert value == At(m, curr);
    if value == '9' {
      r := found + {curr};
    } else {
      UpAtLevel(m, curr);
      r := FindEndsAmong(m, Up(m, curr), Height(m, curr) + 1, found);
    }
  }

  /** The loop of `find_ends_recursive`: search from each of `ps`, all at `level`, in turn. */
  method FindEndsAmong(m: TopoMap, ps: seq<Position>, level: nat, found: set<Position>) returns (r: set<Position>)
    requires AtLevel(m, ps, level)
    ensures r == found + EndsAmong(m, ps, level)
    decreases 9 - level, 1
  {
    r := found;
    for i := 0 to |ps|
      invariant AtLevel(m, ps[..i], level)
      invariant r == found + EndsAmong(m, ps[..i], level)
    {
      AtLevelPrefix(m, ps, level, i + 1);
      r := FindEndsRecursive(m, ps[i], r);
      assert ps[..i + 1][..i] == ps[..i];
    }
    assert ps[..|ps|] == ps;
  }

  /** `walk_trailhead`: the number of distinct `9`s reachable from `trailhead`. */
  method WalkTrailhead(m: TopoMap, trailhead: Position) returns (n: nat)
    requires InMap(m, trailhead) && IsDigit(At(m, trailhead))
    ensures n == |Ends(m, trailhead)|
  {
    var ends := FindEndsRecursive(m, trailhead, {});
    n := |ends|;
  }

  /** Every position of `ps` is on the map and holds a digit. */
  predicate OnDigits(m: TopoMap, ps: seq<Position>)
  {
    forall i :: 0 <= i < |ps| ==> InMap(m, ps[i]) && IsDigit(At(m, ps[i]))
  }

  /** The sum of the scores of `ps`. */
  function Score(m: TopoMap, ps: seq<Position>): nat
    requires OnDigits(m, ps)
  {
    if ps == [] then 0 else Score(m, ps[..|ps| - 1]) + |Ends(m, ps[|ps| - 1])|
  }

  /** The trailheads all hold a digit. */
  lemma ZerosOnDigits(m: TopoMap)
    ensures OnDigits(m, Zeros(m))
  {
    var zs := Zeros(m);
    forall i | 0 <= i < |zs|
      ensures InMap(m, zs[i]) && IsDigit(At(m, zs[i]))
    {
      assert zs[i] in zs;
    }
  }

  /** `sum_scores`: the scores of the trailheads, added up. */
  method SumScores(m: TopoMap) returns (score: nat)
    requires Wide(m)
    ensures OnDigits(m, Zeros(m)) && score == Score(m, Zeros(m))
  {
    var trailheads := FindTrailheads(m);
    ZerosOnDigits(m);
    score := 0;
    for i := 0 to |trailheads|
      invariant OnDigits(m, trailheads[..i])
      invariant score == Score(m, trailheads[..i])
    {
      assert trailheads[..i + 1][..i] == trailheads[..i];
      var n := WalkTrailhead(m, trailheads[i]);
      score := score + n;
    }
    assert trailheads[..|trailheads|] == trailheads;
  }

  /** No sum of scores exceeds the number of positions times the number of `9`s. */
  lemma {:induction false} ScoreBound(m: TopoMap, ps: seq<Position>)
    requires OnDigits(m, ps)
    ensures Score(m, ps) <= |ps| * |Nines(m)|
  {
    if ps != [] {
      assert OnDigits(m, ps[..|ps| - 1]) by {
        assert forall i :: 0 <= i < |ps| - 1 ==> ps[..|ps| - 1][i] == ps[i];
      }
      ScoreBound(m, ps[..|ps| - 1]);
      ScoreAtMostNines(m, ps[|ps| - 1]);
      var k := |Nines(m)|;
      assert (|ps| - 1) * k + k == |ps| * k;
    }
  }

  /** `part_one`: the sum of the trailhead scores of the map read from `input`. */
  method PartOne(input: string) returns (r: Option<nat>)
    requires Wide(TrimmedLines(input))
    ensures OnDigits(TrimmedLines(input), Zeros(TrimmedLines(input)))
    ensures r == Some(Score(TrimmedLines(input), Zeros(TrimmedLines(input))))
  {
    var score := SumScores(TrimmedLines(input));
    r := Some(score);
  }
}
