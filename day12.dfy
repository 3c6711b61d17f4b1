/**
 * Day 12: a garden is a grid of plots, each growing one plant. A region is a
 * 4-connected group of plots with the same plant. `assign_ids` gives every
 * region an id by flood fill; fences are then priced by area times perimeter
 * (part one) or by area times number of straight sides (part two).
 *
 * The width of the garden is the length of its first row: plots of longer
 * rows beyond that width are never read, so the model keeps the ids of the
 * first `Width()` columns only. A row shorter than the first makes the
 * source index out of bounds; the model requires every row to be at least
 * that wide.
 */
module Day12 {
  import opened Wrappers
  import opened Text

  datatype Position = Position(x: nat, y: nat)

  /** The four sides of a plot, in the order the source looks at them. */
  datatype Side = West | North | South | East

  /** The region ids of the plots, row by row; `None` before a plot is marked. */
  type Ids = seq<seq<Option<nat>>>

  /** The id at `p`; `None` outside the grid. */
  function Get(ids: Ids, p: Position): Option<nat>
  {
    if p.y < |ids| && p.x < |ids[p.y]| then ids[p.y][p.x] else None
  }

  /** `ids` with the plot at `p` set to `v`. */
  function Set(ids: Ids, p: Position, v: Option<nat>): (r: Ids)
    requires p.y < |ids| && p.x < |ids[p.y]|
    ensures |r| == |ids| && forall y :: 0 <= y < |ids| ==> |r[y]| == |ids[y]|
    ensures forall q :: Get(r, q) == if q == p then v else Get(ids, q)
  {
    ids[p.y := ids[p.y][p.x := v]]
  }

  /** The plant at `p`; a space outside the rows. */
  function PlantAt(plants: seq<seq<char>>, p: Position): char
  {
    if p.y < |plants| && p.x < |plants[p.y]| then plants[p.y][p.x] else ' '
  }

  predicate InGrid(p: Position, height: nat, width: nat)
  {
    p.x < width && p.y < height
  }

  /** `q` is one orthogonal step away from `p`. */
  predicate Adjacent(p: Position, q: Position)
  {
    (p.x == q.x && (p.y == q.y + 1 || q.y == p.y + 1)) || (p.y == q.y && (p.x == q.x + 1 || q.x == p.x + 1))
  }

  /** The neighbour of `p` across side `d`, if it is in the grid. */
  function Step(p: Position, d: Side, height: nat, width: nat): (r: Option<Position>)
    ensures r.Some? ==> InGrid(r.value, height, width) && Adjacent(p, r.value)
  {
    match d
    case West => if 0 < p.x <= width && p.y < height then Some(Position(p.x - 1, p.y)) else None
    case North => if 0 < p.y <= height && p.x < width then Some(Position(p.x, p.y - 1)) else None
    case South => if p.y + 1 < height && p.x < width then Some(Position(p.x, p.y + 1)) else None
    case East => if p.x + 1 < width && p.y < height then Some(Position(p.x + 1, p.y)) else None
  }

  function Opposite(d: Side): Side
  {
    match d
    case West => East
    case North => South
    case South => North
    case East => West
  }

  /** Plots are neighbours both ways round. */
  lemma StepBack(p: Position, d: Side, height: nat, width: nat)
    requires InGrid(p, height, width) && Step(p, d, height, width).Some?
    ensures Step(Step(p, d, height, width).value, Opposite(d), height, width) == Some(p)
  {
  }

  /** The in-grid neighbours are exactly the plots one orthogonal step away. */
  lemma StepAdjacent(p: Position, q: Position, height: nat, width: nat)
    requires InGrid(p, height, width) && InGrid(q, height, width)
    ensures Adjacent(p, q) <==> exists d :: Step(p, d, height, width) == Some(q)
  {
    if Adjacent(p, q) {
      if q.x + 1 == p.x {
        assert Step(p, West, height, width) == Some(q);
      } else if q.y + 1 == p.y {
        assert Step(p, North, height, width) == Some(q);
      } else if q.y == p.y + 1 {
        assert Step(p, South, height, width) == Some(q);
      } else {
        assert Step(p, East, height, width) == Some(q);
      }
    }
  }

  /** Row-major order of plots: `p` is scanned before `q`. */
  predicate Before(p: Position, q: Position)
  {
    p.y < q.y || (p.y == q.y && p.x < q.x)
  }

  // ---------------------------------------------------------------------------
  // Regions: plots joined by a path of one plant
  // ---------------------------------------------------------------------------

  /** A walk through the grid by orthogonal steps that never leaves the plant it starts on. */
  ghost predicate OnePlantPath(plants: seq<seq<char>>, height: nat, width: nat, path: seq<Position>)
  {
    |path| > 0 &&
    (forall i :: 0 <= i < |path| ==> InGrid(path[i], height, width) && PlantAt(plants, path[i]) == PlantAt(plants, path[0])) &&
    (forall i :: 0 < i < |path| ==> Adjacent(path[i - 1], path[i]))
  }

  /** `p` and `q` lie in one region: a one-plant path leads from `p` to `q`. */
  ghost predicate Joined(plants: seq<seq<char>>, height: nat, width: nat, p: Position, q: Position)
  {
    exists path :: OnePlantPath(plants, height, width, path) && path[0] == p && path[|path| - 1] == q
  }

  lemma JoinedItself(plants: seq<seq<char>>, height: nat, width: nat, p: Position)
    requires InGrid(p, height, width)
    ensures Joined(plants, height, width, p, p)
  {
    assert OnePlantPath(plants, height, width, [p]);
  }

  /** A step to a neighbour of the same plant extends a region. */
  lemma JoinedStep(plants: seq<seq<char>>, height: nat, width: nat, p: Position, q: Position, r: Position)
    requires InGrid(p, height, width) && Adjacent(p, q) && PlantAt(plants, q) == PlantAt(plants, p)
    requires Joined(plants, height, width, q, r)
    ensures Joined(plants, height, width, p, r)
  {
    var path :| OnePlantPath(plants, height, width, path) && path[0] == q && path[|path| - 1] == r;
    var longer := [p] + path;
    assert forall i :: 0 < i < |longer| ==> longer[i] == path[i - 1];
    assert OnePlantPath(plants, height, width, longer);
  }

  lemma JoinedBack(plants: seq<seq<char>>, height: nat, width: nat, p: Position, q: Position)
    requires Joined(plants, height, width, p, q)
    ensures Joined(plants, height, width, q, p)
  {
    var path :| OnePlantPath(plants, height, width, path) && path[0] == p && path[|path| - 1] == q;
    var n := |path|;
    var back := seq(n, i requires 0 <= i < n => path[n - 1 - i]);
    assert forall i :: 0 <= i < n ==> PlantAt(plants, back[i]) == PlantAt(plants, path[0]);
    forall i | 0 < i < n
      ensures Adjacent(back[i - 1], back[i])
    {
      assert Adjacent(path[n - 1 - i], path[n - i]);
    }
    assert OnePlantPath(plants, height, width, back);
  }

  lemma JoinedTrans(plants: seq<seq<char>>, height: nat, width: nat, p: Position, q: Position, r: Position)
    requires Joined(plants, height, width, p, q) && Joined(plants, height, width, q, r)
    ensures Joined(plants, height, width, p, r)
  {
    var first :| OnePlantPath(plants, height, width, first) && first[0] == p && first[|first| - 1] == q;
    var second :| OnePlantPath(plants, height, width, second) && second[0] == q && second[|second| - 1] == r;
    var path := first + second[1..];
    var n := |first|;
    assert forall i :: n <= i < |path| ==> path[i] == second[i - n + 1];
    assert forall i :: 0 <= i < n ==> path[i] == first[i];
    assert PlantAt(plants, second[0]) == PlantAt(plants, first[0]);
    assert OnePlantPath(plants, height, width, path);
  }

  /** In a complete marking, a region carries one id: a one-plant path never crosses from one id to another. */
  lemma JoinedSameId(plants: seq<seq<char>>, ids: Ids, height: nat, width: nat, p: Position, q: Position)
    requires Closed(plants, ids, height, width) && Get(ids, p).Some?
    requires Joined(plants, height, width, p, q)
    ensures Get(ids, q) == Get(ids, p)
  {
    var path :| OnePlantPath(plants, height, width, path) && path[0] == p && path[|path| - 1] == q;
    var i := 0;
    while i < |path| - 1
      invariant i < |path| && Get(ids, path[i]) == Get(ids, p)
    {
      ClosedStep(plants, ids, height, width, path[i], path[i + 1]);
      i := i + 1;
    }
  }

  lemma ClosedStep(plants: seq<seq<char>>, ids: Ids, height: nat, width: nat, p: Position, q: Position)
    requires Closed(plants, ids, height, width) && Get(ids, p).Some?
    requires InGrid(p, height, width) && InGrid(q, height, width) && Adjacent(p, q) && PlantAt(plants, q) == PlantAt(plants, p)
    ensures Get(ids, q) == Get(ids, p)
  {
    StepAdjacent(p, q, height, width);
    var d :| Step(p, d, height, width) == Some(q);
  }

  // ---------------------------------------------------------------------------
  // Flood fill: what marking a region leaves behind
  // ---------------------------------------------------------------------------

  /**
   * Across side `d`, a marked plot `p` of id `id`-in-progress may still face
   * an unmarked plot of its plant; any other marked plot faces plots of its
   * plant with its own id only.
   */
  predicate SideOk(plants: seq<seq<char>>, ids: Ids, height: nat, width: nat, id: nat, p: Position, d: Side)
  {
    match Step(p, d, height, width)
    case None => true
    case Some(q) =>
      PlantAt(plants, q) != PlantAt(plants, p) || Get(ids, q) == Get(ids, p) ||
      (Get(ids, p) == Some(id) && Get(ids, q).None?)
  }

  predicate PlotOk(plants: seq<seq<char>>, ids: Ids, height: nat, width: nat, id: nat, p: Position)
  {
    Get(ids, p).Some? ==>
      SideOk(plants, ids, height, width, id, p, West) && SideOk(plants, ids, height, width, id, p, North) &&
      SideOk(plants, ids, height, width, id, p, South) && SideOk(plants, ids, height, width, id, p, East)
  }

  /** The flood fill of region `id` is under way and every other region is complete. */
  ghost predicate Filling(plants: seq<seq<char>>, ids: Ids, height: nat, width: nat, id: nat)
  {
    forall p :: InGrid(p, height, width) ==> PlotOk(plants, ids, height, width, id, p)
  }

  /** Across side `d` of `p` lies an unmarked plot of the same plant. */
  predicate OpenToward(plants: seq<seq<char>>, ids: Ids, height: nat, width: nat, p: Position, d: Side)
  {
    match Step(p, d, height, width)
    case None => false
    case Some(q) => PlantAt(plants, q) == PlantAt(plants, p) && Get(ids, q).None?
  }

  /** `p` still has an unmarked neighbour of its own plant: the frontier of a fill. */
  predicate Open(plants: seq<seq<char>>, ids: Ids, height: nat, width: nat, p: Position)
  {
    OpenToward(plants, ids, height, width, p, West) || OpenToward(plants, ids, height, width, p, North) ||
    OpenToward(plants, ids, height, width, p, South) || OpenToward(plants, ids, height, width, p, East)
  }

  /** Every marked plot shares its id with all its neighbours of the same plant. */
  ghost predicate Closed(plants: seq<seq<char>>, ids: Ids, height: nat, width: nat)
  {
    forall p, d ::
      (InGrid(p, height, width) && Get(ids, p).Some? && Step(p, d, height, width).Some? &&
       PlantAt(plants, Step(p, d, height, width).value) == PlantAt(plants, p)) ==>
      Get(ids, Step(p, d, height, width).value) == Get(ids, p)
  }

  /** The unmarked plots. */
  ghost function Unmarked(ids: Ids, height: nat, width: nat): set<Position>
  {
    set x: nat, y: nat | x < width && y < height && Get(ids, Position(x, y)).None? :: Position(x, y)
  }

  /** Marking `curr` with the id being filled keeps every other region complete. */
  lemma MarkKeepsFilling(plants: seq<seq<char>>, ids: Ids, height: nat, width: nat, id: nat, curr: Position)
    requires InGrid(curr, height, width) && curr.y < |ids| && curr.x < |ids[curr.y]|
    requires Filling(plants, ids, height, width, id)
    requires Get(ids, curr).None? || Get(ids, curr) == Some(id)
    ensures Filling(plants, Set(ids, curr, Some(id)), height, width, id)
  {
    var marked := Set(ids, curr, Some(id));
    forall p | InGrid(p, height, width)
      ensures PlotOk(plants, marked, height, width, id, p)
    {
      if Get(marked, p).Some? {
        MarkKeepsSide(plants, ids, height, width, id, curr, p, West);
        MarkKeepsSide(plants, ids, height, width, id, curr, p, North);
        MarkKeepsSide(plants, ids, height, width, id, curr, p, South);
        MarkKeepsSide(plants, ids, height, width, id, curr, p, East);
      }
    }
  }

  lemma MarkKeepsSide(plants: seq<seq<char>>, ids: Ids, height: nat, width: nat, id: nat, curr: Position, p: Position, d: Side)
    requires InGrid(curr, height, width) && curr.y < |ids| && curr.x < |ids[curr.y]|
    requires Filling(plants, ids, height, width, id)
    requires Get(ids, curr).None? || Get(ids, curr) == Some(id)
    requires InGrid(p, height, width) && Get(Set(ids, curr, Some(id)), p).Some?
    ensures SideOk(plants, Set(ids, curr, Some(id)), height, width, id, p, d)
  {
    var marked := Set(ids, curr, Some(id));
    var s := Step(p, d, height, width);
    if s.Some? && PlantAt(plants, s.value) == PlantAt(plants, p) {
      var q := s.value;
      if p == curr {
        if Get(ids, q).Some? && Get(ids, q) != Some(id) {
          StepBack(p, d, height, width);
          assert PlotOk(plants, ids, height, width, id, q);
          assert SideOk(plants, ids, height, width, id, q, Opposite(d));
        }
      } else if q == curr {
        assert PlotOk(plants, ids, height, width, id, p);
        assert SideOk(plants, ids, height, width, id, p, d);
      } else {
        assert PlotOk(plants, ids, height, width, id, p);
        assert SideOk(plants, ids, height, width, id, p, d);
      }
    }
  }

  /** A complete marking with no plot of `id` is a valid start for filling `id`. */
  lemma ClosedStartsFilling(plants: seq<seq<char>>, ids: Ids, height: nat, width: nat, id: nat)
    requires Closed(plants, ids, height, width)
    ensures Filling(plants, ids, height, width, id)
  {
    forall p | InGrid(p, height, width)
      ensures PlotOk(plants, ids, height, width, id, p)
    {
    }
  }

  /** A fill with no open plot of `id` left is a complete marking. */
  lemma FillingEndsClosed(plants: seq<seq<char>>, ids: Ids, height: nat, width: nat, id: nat)
    requires Filling(plants, ids, height, width, id)
    requires forall p :: InGrid(p, height, width) && Get(ids, p) == Some(id) ==> !Open(plants, ids, height, width, p)
    ensures Closed(plants, ids, height, width)
  {
    forall p, d | InGrid(p, height, width) && Get(ids, p).Some? && Step(p, d, height, width).Some? &&
      PlantAt(plants, Step(p, d, height, width).value) == PlantAt(plants, p)
      ensures Get(ids, Step(p, d, height, width).value) == Get(ids, p)
    {
      assert PlotOk(plants, ids, height, width, id, p);
      assert SideOk(plants, ids, height, width, id, p, d);
      if Get(ids, p) == Some(id) {
        assert !OpenToward(plants, ids, height, width, p, d);
      }
    }
  }

  /** Once more plots are marked, fewer are left than before `curr` was marked. */
  lemma FewerUnmarked(before: Ids, marked: Ids, now: Ids, height: nat, width: nat, curr: Position, next: Position)
    requires InGrid(curr, height, width) && InGrid(next, height, width)
    requires forall q :: Get(marked, q) == if q == curr then Get(marked, curr) else Get(before, q)
    requires Get(marked, curr).Some? && Get(marked, next).None?
    requires forall p :: InGrid(p, height, width) && Get(marked, p).Some? ==> Get(now, p) == Get(marked, p)
    ensures |Unmarked(now, height, width) - {next}| < |Unmarked(before, height, width) - {curr}|
  {
    var a, b := Unmarked(now, height, width) - {next}, Unmarked(before, height, width) - {curr};
    assert a <= b - {next} by {
      forall p | p in a ensures p in b - {next} {
        assert InGrid(p, height, width);
      }
    }
    assert next in b;
    SubsetSize(a, b - {next});
    assert |b - {next}| == |b| - 1;
  }

  lemma SubsetSize<T>(a: set<T>, b: set<T>)
    requires a <= b
    ensures |a| <= |b|
  {
    assert b == a + (b - a);
  }

  /** After `marked` was `before` with `curr` marked, `curr` is no longer open once every listed neighbour is marked. */
  lemma CurrClosed(plants: seq<seq<char>>, marked: Ids, now: Ids, height: nat, width: nat, curr: Position, adjacent: seq<Position>)
    requires InGrid(curr, height, width)
    requires forall d :: OpenToward(plants, marked, height, width, curr, d) ==> Step(curr, d, height, width).value in adjacent
    requires forall j :: 0 <= j < |adjacent| ==> Get(now, adjacent[j]).Some?
    requires forall p :: InGrid(p, height, width) && Get(marked, p).Some? ==> Get(now, p) == Get(marked, p)
    ensures !Open(plants, now, height, width, curr)
  {
    forall d
      ensures !OpenToward(plants, now, height, width, curr, d)
    {
      var s := Step(curr, d, height, width);
      if s.Some? && Get(marked, s.value).None? && PlantAt(plants, s.value) == PlantAt(plants, curr) {
        assert s.value in adjacent;
        var j :| 0 <= j < |adjacent| && adjacent[j] == s.value;
      }
    }
  }

  /** An open plot other than the one just marked was open before the marking. */
  lemma OpenBeforeMark(plants: seq<seq<char>>, before: Ids, height: nat, width: nat, curr: Position, id: nat, p: Position)
    requires curr.y < |before| && curr.x < |before[curr.y]|
    requires Open(plants, Set(before, curr, Some(id)), height, width, p)
    ensures Open(plants, before, height, width, p)
  {
    var marked := Set(before, curr, Some(id));
    if OpenToward(plants, marked, height, width, p, West) {
      assert OpenToward(plants, before, height, width, p, West);
    } else if OpenToward(plants, marked, height, width, p, North) {
      assert OpenToward(plants, before, height, width, p, North);
    } else if OpenToward(plants, marked, height, width, p, South) {
      assert OpenToward(plants, before, height, width, p, South);
    } else {
      assert OpenToward(plants, before, height, width, p, East);
    }
  }

  /**
   * From `before` to `after` the fill of `id` only marked: marked plots keep
   * their id, newly marked ones get `id` and grow `plant`, and every open
   * plot of `id` was already an open plot of `id`.
   */
  ghost predicate Grows(plants: seq<seq<char>>, before: Ids, after: Ids, height: nat, width: nat, id: nat, plant: char)
  {
    (forall p :: InGrid(p, height, width) && Get(before, p).Some? ==> Get(after, p) == Get(before, p)) &&
    (forall p :: InGrid(p, height, width) && Get(after, p).Some? && Get(before, p).None? ==>
       Get(after, p) == Some(id) && PlantAt(plants, p) == plant) &&
    (forall p :: InGrid(p, height, width) && Get(after, p) == Some(id) && Open(plants, after, height, width, p) ==>
       Get(before, p) == Some(id) && Open(plants, before, height, width, p))
  }

  lemma GrowsTrans(plants: seq<seq<char>>, a: Ids, b: Ids, c: Ids, height: nat, width: nat, id: nat, plant: char)
    requires Grows(plants, a, b, height, width, id, plant) && Grows(plants, b, c, height, width, id, plant)
    ensures Grows(plants, a, c, height, width, id, plant)
  {
  }

  lemma GrowsKeeps(plants: seq<seq<char>>, before: Ids, after: Ids, height: nat, width: nat, id: nat, plant: char,
                    adjacent: seq<Position>, i: nat)
    requires i < |adjacent| && forall j :: 0 <= j < |adjacent| ==> InGrid(adjacent[j], height, width)
    requires Grows(plants, before, after, height, width, id, plant)
    requires forall j :: 0 <= j < i ==> Get(before, adjacent[j]).Some?
    requires Get(after, adjacent[i]).Some?
    ensures forall j :: 0 <= j <= i ==> Get(after, adjacent[j]).Some?
  {
  }

  /** The fill from the `i`-th neighbour of `curr` carries the fill of `curr` one neighbour further. */
  lemma FillNeighbour(plants: seq<seq<char>>, marked: Ids, prev: Ids, now: Ids, height: nat, width: nat, id: nat,
                      curr: Position, adjacent: seq<Position>, i: nat)
    requires InGrid(curr, height, width) && i < |adjacent| && forall j :: 0 <= j < |adjacent| ==> InGrid(adjacent[j], height, width)
    requires Adjacent(curr, adjacent[i]) && PlantAt(plants, adjacent[i]) == PlantAt(plants, curr)
    requires Grows(plants, marked, prev, height, width, id, PlantAt(plants, curr))
    requires Grows(plants, prev, now, height, width, id, PlantAt(plants, curr))
    requires Spreads(plants, marked, prev, height, width, curr) && Spreads(plants, prev, now, height, width, adjacent[i])
    requires forall j :: 0 <= j < i ==> Get(prev, adjacent[j]).Some?
    requires Get(now, adjacent[i]).Some?
    ensures Grows(plants, marked, now, height, width, id, PlantAt(plants, curr))
    ensures Spreads(plants, marked, now, height, width, curr)
    ensures forall j :: 0 <= j <= i ==> Get(now, adjacent[j]).Some?
  {
    GrowsTrans(plants, marked, prev, now, height, width, id, PlantAt(plants, curr));
    GrowsKeeps(plants, prev, now, height, width, id, PlantAt(plants, curr), adjacent, i);
    SpreadsStep(plants, marked, prev, now, height, width, curr, adjacent[i]);
  }

  /** Undoing the marking of `curr` that started a fill, once `curr` is closed. */
  lemma GrowsFromMark(plants: seq<seq<char>>, before: Ids, after: Ids, height: nat, width: nat, id: nat, curr: Position)
    requires InGrid(curr, height, width) && curr.y < |before| && curr.x < |before[curr.y]|
    requires Get(before, curr).None? || Get(before, curr) == Some(id)
    requires Grows(plants, Set(before, curr, Some(id)), after, height, width, id, PlantAt(plants, curr))
    requires !Open(plants, after, height, width, curr)
    ensures Grows(plants, before, after, height, width, id, PlantAt(plants, curr))
  {
    var marked := Set(before, curr, Some(id));
    forall p | InGrid(p, height, width) && Get(after, p) == Some(id) && Open(plants, after, height, width, p)
      ensures Get(before, p) == Some(id) && Open(plants, before, height, width, p)
    {
      OpenBeforeMark(plants, before, height, width, curr, id, p);
    }
  }

  /** Every plot marked between `before` and `after` lies in the region of `from`. */
  ghost predicate Spreads(plants: seq<seq<char>>, before: Ids, after: Ids, height: nat, width: nat, from: Position)
  {
    forall p :: InGrid(p, height, width) && Get(after, p).Some? && Get(before, p).None? ==> Joined(plants, height, width, from, p)
  }

  /** The fill of a neighbour of the same plant spreads through the region of `curr`. */
  lemma SpreadsStep(plants: seq<seq<char>>, marked: Ids, prev: Ids, now: Ids, height: nat, width: nat, curr: Position, next: Position)
    requires InGrid(curr, height, width) && Adjacent(curr, next) && PlantAt(plants, next) == PlantAt(plants, curr)
    requires Spreads(plants, marked, prev, height, width, curr) && Spreads(plants, prev, now, height, width, next)
    ensures Spreads(plants, marked, now, height, width, curr)
  {
    forall p | InGrid(p, height, width) && Get(now, p).Some? && Get(marked, p).None?
      ensures Joined(plants, height, width, curr, p)
    {
      if Get(prev, p).None? {
        JoinedStep(plants, height, width, curr, next, p);
      }
    }
  }

  /** Marking `curr` and spreading from it marks only plots of its region. */
  lemma SpreadsFromMark(plants: seq<seq<char>>, before: Ids, now: Ids, height: nat, width: nat, id: nat, curr: Position)
    requires InGrid(curr, height, width) && curr.y < |before| && curr.x < |before[curr.y]|
    requires Spreads(plants, Set(before, curr, Some(id)), now, height, width, curr)
    ensures Spreads(plants, before, now, height, width, curr)
  {
    JoinedItself(plants, height, width, curr);
  }

  /**
   * A complete labelling of the regions: every plot has an id below
   * `|starts|`, neighbours of the same plant share their id, and region `k`
   * is the one reached from `starts[k]` by paths of its plant, `starts[k]`
   * being the first of its plots in scan order, each later region starting
   * further on.
   */
  ghost predicate Labelling(plants: seq<seq<char>>, ids: Ids, height: nat, width: nat, starts: seq<Position>)
  {
    (|ids| == height && forall y :: 0 <= y < height ==> |ids[y]| == width) &&
    (forall p :: InGrid(p, height, width) ==> Get(ids, p).Some? && Get(ids, p).value < |starts|) &&
    Closed(plants, ids, height, width) &&
    (forall k :: 0 <= k < |starts| ==> InGrid(starts[k], height, width) && Get(ids, starts[k]) == Some(k)) &&
    (forall k, l :: 0 <= k < l < |starts| ==> Before(starts[k], starts[l])) &&
    (forall p :: InGrid(p, height, width) ==> IdOk(plants, ids, starts, p)) &&
    (forall p :: InGrid(p, height, width) ==> Joined(plants, height, width, starts[Get(ids, p).value], p))
  }

  /** In a complete labelling two plots share an id exactly when they lie in one region. */
  lemma LabellingRegions(plants: seq<seq<char>>, ids: Ids, height: nat, width: nat, starts: seq<Position>, p: Position, q: Position)
    requires Labelling(plants, ids, height, width, starts)
    requires InGrid(p, height, width) && InGrid(q, height, width)
    ensures Get(ids, p) == Get(ids, q) <==> Joined(plants, height, width, p, q)
  {
    if Joined(plants, height, width, p, q) {
      JoinedSameId(plants, ids, height, width, p, q);
    }
    if Get(ids, p) == Get(ids, q) {
      var first := starts[Get(ids, p).value];
      JoinedBack(plants, height, width, first, p);
      JoinedTrans(plants, height, width, p, first, q);
    }
  }

  /** The first plot of a region under one labelling is the first plot of a region under any other. */
  lemma StartShared(plants: seq<seq<char>>, ids: Ids, ids': Ids, height: nat, width: nat, starts: seq<Position>, starts': seq<Position>, k: nat)
    requires Labelling(plants, ids, height, width, starts) && Labelling(plants, ids', height, width, starts')
    requires k < |starts|
    ensures starts[k] in starts'
  {
    var first := starts[k];
    assert InGrid(first, height, width) && Get(ids, first) == Some(k);
    var j := Get(ids', first).value;
    var first' := starts'[j];
    assert InGrid(first', height, width) && Get(ids', first') == Some(j);
    assert Joined(plants, height, width, first', first);
    JoinedBack(plants, height, width, first', first);
    JoinedSameId(plants, ids, height, width, first, first');
    assert !Before(first', first) by {
      assert IdOk(plants, ids, starts, first');
    }
    assert !Before(first, first') by {
      assert IdOk(plants, ids', starts', first);
    }
    assert first == first';
  }

  /** The first plot of a list in strict scan order comes first among all of its plots. */
  lemma FirstIsLeast(a: seq<Position>, x: Position)
    requires forall k, l :: 0 <= k < l < |a| ==> Before(a[k], a[l])
    requires x in a
    ensures x == a[0] || Before(a[0], x)
  {
    var j :| 0 <= j < |a| && a[j] == x;
    if j > 0 {
      assert Before(a[0], a[j]);
    }
  }

  /** Two lists in strict scan order holding the same plots are the same list. */
  lemma {:induction false} ScanOrderUnique(a: seq<Position>, b: seq<Position>)
    requires forall k, l :: 0 <= k < l < |a| ==> Before(a[k], a[l])
    requires forall k, l :: 0 <= k < l < |b| ==> Before(b[k], b[l])
    requires forall k :: 0 <= k < |a| ==> a[k] in b
    requires forall k :: 0 <= k < |b| ==> b[k] in a
    ensures a == b
  {
    assert |b| > 0 ==> b[0] in a;
    if |a| > 0 {
      FirstIsLeast(b, a[0]);
      FirstIsLeast(a, b[0]);
      assert a[0] == b[0];
      assert a == [a[0]] + a[1..] && b == [b[0]] + b[1..];
      forall k | 0 <= k < |a| - 1
        ensures a[1..][k] in b[1..]
      {
        assert a[k + 1] in b && Before(a[0], a[k + 1]);
      }
      forall k | 0 <= k < |b| - 1
        ensures b[1..][k] in a[1..]
      {
        assert b[k + 1] in a && Before(b[0], b[k + 1]);
      }
      ScanOrderUnique(a[1..], b[1..]);
    }
  }

  /**
   * A garden has one complete labelling only: the first plots of its
   * regions in scan order, and each plot's id, are fixed by the plants.
   */
  lemma LabellingUnique(plants: seq<seq<char>>, ids: Ids, ids': Ids, height: nat, width: nat, starts: seq<Position>, starts': seq<Position>)
    requires Labelling(plants, ids, height, width, starts) && Labelling(plants, ids', height, width, starts')
    ensures starts == starts' && ids == ids'
  {
    forall k | 0 <= k < |starts|
      ensures starts[k] in starts'
    {
      StartShared(plants, ids, ids', height, width, starts, starts', k);
    }
    forall k | 0 <= k < |starts'|
      ensures starts'[k] in starts
    {
      StartShared(plants, ids', ids, height, width, starts', starts, k);
    }
    ScanOrderUnique(starts, starts');
    forall y | 0 <= y < height
      ensures ids[y] == ids'[y]
    {
      forall x | 0 <= x < width
        ensures ids[y][x] == ids'[y][x]
      {
        var p := Position(x, y);
        var k := Get(ids, p).value;
        JoinedSameId(plants, ids', height, width, starts'[k], p);
      }
    }
  }

  /** A column holding none of a path's plant is never crossed: a path starting left of it stays left of it. */
  lemma StaysLeftOf(plants: seq<seq<char>>, height: nat, width: nat, path: seq<Position>, c: nat)
    requires OnePlantPath(plants, height, width, path) && path[0].x < c
    requires forall y: nat :: PlantAt(plants, Position(c, y)) != PlantAt(plants, path[0])
    ensures forall i :: 0 <= i < |path| ==> path[i].x < c
  {
    var i := 0;
    while i < |path| - 1
      invariant 0 <= i < |path| && forall j :: 0 <= j <= i ==> path[j].x < c
    {
      assert Adjacent(path[i], path[i + 1]);
      assert PlantAt(plants, path[i + 1]) == PlantAt(plants, path[0]);
      assert path[i + 1] != Position(c, path[i + 1].y);
      i := i + 1;
    }
  }

  /** In the garden `ABA` the two `A` plots are not joined: the `B` plot separates them. */
  lemma SeparatedPlots()
    ensures !Joined(["ABA"], 1, 3, Position(0, 0), Position(2, 0))
  {
    forall path | OnePlantPath(["ABA"], 1, 3, path) && path[0] == Position(0, 0)
      ensures path[|path| - 1] != Position(2, 0)
    {
      assert forall y: nat :: PlantAt(["ABA"], Position(1, y)) != 'A';
      StaysLeftOf(["ABA"], 1, 3, path, 1);
    }
  }

  /** Every labelling of the garden `ABA` gives its two `A` plots different ids. */
  lemma SeparatedRegions(ids: Ids, starts: seq<Position>)
    requires Labelling(["ABA"], ids, 1, 3, starts)
    ensures Get(ids, Position(0, 0)) != Get(ids, Position(2, 0))
  {
    SeparatedPlots();
    LabellingRegions(["ABA"], ids, 1, 3, starts, Position(0, 0), Position(2, 0));
  }

  /**
   * The scan of `assign_ids` has reached `cursor`: every plot before it is
   * marked, each marked plot has the id of a region found so far, the plant
   * of that region's first plot and no plot before that one, a path of
   * that plant leading to it from the first plot, and the regions were
   * found in scan order.
   */
  ghost predicate Numbered(plants: seq<seq<char>>, ids: Ids, height: nat, width: nat, starts: seq<Position>, cursor: Position)
  {
    (forall p :: InGrid(p, height, width) && Before(p, cursor) ==> Get(ids, p).Some?) &&
    (forall p :: InGrid(p, height, width) && Get(ids, p).Some? ==> IdOk(plants, ids, starts, p)) &&
    (forall p :: InGrid(p, height, width) && Get(ids, p).Some? && Get(ids, p).value < |starts| ==>
       Joined(plants, height, width, starts[Get(ids, p).value], p)) &&
    (forall k :: 0 <= k < |starts| ==> InGrid(starts[k], height, width) && Get(ids, starts[k]) == Some(k) && Before(starts[k], cursor)) &&
    (forall k, l :: 0 <= k < l < |starts| ==> Before(starts[k], starts[l]))
  }

  /** The marked plot `p` belongs to a region whose first plot is listed in `starts`. */
  predicate IdOk(plants: seq<seq<char>>, ids: Ids, starts: seq<Position>, p: Position)
    requires Get(ids, p).Some?
  {
    var k := Get(ids, p).value;
    k < |starts| && !Before(p, starts[k]) && PlantAt(plants, p) == PlantAt(plants, starts[k])
  }

  /** Moving the cursor past a plot that is already marked. */
  lemma NumberedSkip(plants: seq<seq<char>>, ids: Ids, height: nat, width: nat, starts: seq<Position>, cursor: Position)
    requires Numbered(plants, ids, height, width, starts, cursor) && Get(ids, cursor).Some?
    ensures Numbered(plants, ids, height, width, starts, Position(cursor.x + 1, cursor.y))
  {
  }

  /** Filling a new region from the unmarked plot at the cursor. */
  lemma NumberedFill(plants: seq<seq<char>>, before: Ids, after: Ids, height: nat, width: nat, starts: seq<Position>, cursor: Position)
    requires InGrid(cursor, height, width) && Get(before, cursor).None?
    requires Numbered(plants, before, height, width, starts, cursor)
    requires Grows(plants, before, after, height, width, |starts|, PlantAt(plants, cursor))
    requires Spreads(plants, before, after, height, width, cursor)
    requires Get(after, cursor) == Some(|starts|)
    ensures Numbered(plants, after, height, width, starts + [cursor], Position(cursor.x + 1, cursor.y))
  {
    var starts', next := starts + [cursor], Position(cursor.x + 1, cursor.y);
    forall p | InGrid(p, height, width) && Before(p, next)
      ensures Get(after, p).Some?
    {
      if p != cursor {
        assert Get(before, p).Some?;
      }
    }
    NumberedFillIds(plants, before, after, height, width, starts, cursor);
    NumberedFillJoined(plants, before, after, height, width, starts, cursor);
    NumberedFillStarts(plants, before, after, height, width, starts, cursor);
  }

  /** The plots filled from `cursor` take the new region's id, and nothing lies before their first plot. */
  lemma NumberedFillIds(plants: seq<seq<char>>, before: Ids, after: Ids, height: nat, width: nat, starts: seq<Position>, cursor: Position)
    requires InGrid(cursor, height, width)
    requires forall p :: InGrid(p, height, width) && Before(p, cursor) ==> Get(before, p).Some?
    requires forall p :: InGrid(p, height, width) && Get(before, p).Some? ==> IdOk(plants, before, starts, p)
    requires Grows(plants, before, after, height, width, |starts|, PlantAt(plants, cursor))
    ensures forall p :: InGrid(p, height, width) && Get(after, p).Some? ==> IdOk(plants, after, starts + [cursor], p)
  {
    forall p | InGrid(p, height, width) && Get(after, p).Some?
      ensures IdOk(plants, after, starts + [cursor], p)
    {
      if Get(before, p).Some? {
        assert IdOk(plants, before, starts, p);
      }
    }
  }

  /** The new region's first plot comes after those of the regions found before it. */
  lemma NumberedFillStarts(plants: seq<seq<char>>, before: Ids, after: Ids, height: nat, width: nat, starts: seq<Position>, cursor: Position)
    requires InGrid(cursor, height, width)
    requires forall k :: 0 <= k < |starts| ==> InGrid(starts[k], height, width) && Get(before, starts[k]) == Some(k) && Before(starts[k], cursor)
    requires forall k, l :: 0 <= k < l < |starts| ==> Before(starts[k], starts[l])
    requires Grows(plants, before, after, height, width, |starts|, PlantAt(plants, cursor))
    requires Get(after, cursor) == Some(|starts|)
    ensures forall k :: 0 <= k < |starts| + 1 ==>
      InGrid((starts + [cursor])[k], height, width) && Get(after, (starts + [cursor])[k]) == Some(k) &&
      Before((starts + [cursor])[k], Position(cursor.x + 1, cursor.y))
    ensures forall k, l :: 0 <= k < l < |starts| + 1 ==> Before((starts + [cursor])[k], (starts + [cursor])[l])
  {
    var starts' := starts + [cursor];
    forall k | 0 <= k < |starts'|
      ensures InGrid(starts'[k], height, width) && Get(after, starts'[k]) == Some(k) && Before(starts'[k], Position(cursor.x + 1, cursor.y))
    {
      if k < |starts| {
        assert Get(before, starts[k]) == Some(k);
      }
    }
    forall k, l | 0 <= k < l < |starts'|
      ensures Before(starts'[k], starts'[l])
    {
      if l == |starts| {
        assert Before(starts[k], cursor);
      }
    }
  }

  /** The plots filled from `cursor` are reached from it, the first plot of the new region. */
  lemma NumberedFillJoined(plants: seq<seq<char>>, before: Ids, after: Ids, height: nat, width: nat, starts: seq<Position>, cursor: Position)
    requires Grows(plants, before, after, height, width, |starts|, PlantAt(plants, cursor))
    requires Spreads(plants, before, after, height, width, cursor)
    requires forall p :: InGrid(p, height, width) && Get(before, p).Some? ==> IdOk(plants, before, starts, p)
    requires forall p :: InGrid(p, height, width) && Get(before, p).Some? && Get(before, p).value < |starts| ==>
      Joined(plants, height, width, starts[Get(before, p).value], p)
    ensures forall p :: InGrid(p, height, width) && Get(after, p).Some? && Get(after, p).value < |starts| + 1 ==>
      Joined(plants, height, width, (starts + [cursor])[Get(after, p).value], p)
  {
    forall p | InGrid(p, height, width) && Get(after, p).Some? && Get(after, p).value < |starts| + 1
      ensures Joined(plants, height, width, (starts + [cursor])[Get(after, p).value], p)
    {
      if Get(before, p).Some? {
        assert IdOk(plants, before, starts, p);
      }
    }
  }

  /** Once the scan has passed the last row, the marking is a complete labelling. */
  lemma NumberedDone(plants: seq<seq<char>>, ids: Ids, height: nat, width: nat, starts: seq<Position>)
    requires |ids| == height && forall y :: 0 <= y < height ==> |ids[y]| == width
    requires Closed(plants, ids, height, width)
    requires Numbered(plants, ids, height, width, starts, Position(0, height))
    ensures Labelling(plants, ids, height, width, starts)
  {
  }

  /** At the end of a row the cursor moves to the start of the next. */
  lemma NumberedRow(plants: seq<seq<char>>, ids: Ids, height: nat, width: nat, starts: seq<Position>, y: nat)
    requires Numbered(plants, ids, height, width, starts, Position(width, y))
    ensures Numbered(plants, ids, height, width, starts, Position(0, y + 1))
  {
  }

  /** One direction of `adjacent_plots`: the neighbour across `d` if it is unmarked and of `p`'s plant. */
  function Toward(plants: seq<seq<char>>, ids: Ids, height: nat, width: nat, p: Position, d: Side): (r: seq<Position>)
    ensures r == if OpenToward(plants, ids, height, width, p, d) then [Step(p, d, height, width).value] else []
  {
    match Step(p, d, height, width)
    case Some(q) => if Get(ids, q).None? && PlantAt(plants, q) == PlantAt(plants, p) then [q] else []
    case None => []
  }

  // ---------------------------------------------------------------------------
  // Sums over the grid
  // ---------------------------------------------------------------------------

  /** `f` summed over the first `n` plots of row `y`. */
  function RowSum(f: Position -> nat, y: nat, n: nat): nat
  {
    if n == 0 then 0 else RowSum(f, y, n - 1) + f(Position(n - 1, y))
  }

  /** `f` summed over the first `rows` rows of width `width`, row by row. */
  function GridSum(f: Position -> nat, rows: nat, width: nat): nat
  {
    if rows == 0 then 0 else GridSum(f, rows - 1, width) + RowSum(f, rows - 1, width)
  }

  /** `f` summed over the first `n` plots of column `x`. */
  function ColumnSum(f: Position -> nat, x: nat, n: nat): nat
  {
    if n == 0 then 0 else ColumnSum(f, x, n - 1) + f(Position(x, n - 1))
  }

  /** `f` summed over the first `columns` columns of height `height`, column by column. */
  function ColumnGridSum(f: Position -> nat, height: nat, columns: nat): nat
  {
    if columns == 0 then 0 else ColumnGridSum(f, height, columns - 1) + ColumnSum(f, columns - 1, height)
  }

  lemma {:induction false} GridSumLastColumn(f: Position -> nat, rows: nat, width: nat)
    ensures GridSum(f, rows, width + 1) == GridSum(f, rows, width) + ColumnSum(f, width, rows)
  {
    if rows > 0 {
      GridSumLastColumn(f, rows - 1, width);
    }
  }

  /** Summing column by column gives the same total as row by row. */
  lemma {:induction false} ColumnsRows(f: Position -> nat, height: nat, width: nat)
    ensures ColumnGridSum(f, height, width) == GridSum(f, height, width)
  {
    if width > 0 {
      ColumnsRows(f, height, width - 1);
      GridSumLastColumn(f, height, width - 1);
    } else {
      GridSumNoColumns(f, height);
    }
  }

  lemma {:induction false} GridSumNoColumns(f: Position -> nat, rows: nat)
    ensures GridSum(f, rows, 0) == 0
  {
    if rows > 0 {
      GridSumNoColumns(f, rows - 1);
    }
  }

  lemma {:induction false} RowSumAdd(f: Position -> nat, g: Position -> nat, s: Position -> nat, y: nat, n: nat)
    requires forall x :: 0 <= x < n ==> s(Position(x, y)) == f(Position(x, y)) + g(Position(x, y))
    ensures RowSum(s, y, n) == RowSum(f, y, n) + RowSum(g, y, n)
  {
    if n > 0 {
      RowSumAdd(f, g, s, y, n - 1);
    }
  }

  /** The grid sum of a pointwise sum is the sum of the grid sums. */
  lemma {:induction false} GridSumAdd(f: Position -> nat, g: Position -> nat, s: Position -> nat, rows: nat, width: nat)
    requires forall p :: InGrid(p, rows, width) ==> s(p) == f(p) + g(p)
    ensures GridSum(s, rows, width) == GridSum(f, rows, width) + GridSum(g, rows, width)
  {
    if rows > 0 {
      GridSumAdd(f, g, s, rows - 1, width);
      RowSumAdd(f, g, s, rows - 1, width);
    }
  }

  lemma {:induction false} RowSumFourfold(f: Position -> nat, g: Position -> nat, y: nat, n: nat)
    requires forall x :: 0 <= x < n ==> f(Position(x, y)) <= 4 * g(Position(x, y))
    ensures RowSum(f, y, n) <= 4 * RowSum(g, y, n)
  {
    if n > 0 {
      RowSumFourfold(f, g, y, n - 1);
    }
  }

  /** Terms at most four times those of another sum give at most four times its total. */
  lemma {:induction false} GridSumFourfold(f: Position -> nat, g: Position -> nat, rows: nat, width: nat)
    requires forall p :: InGrid(p, rows, width) ==> f(p) <= 4 * g(p)
    ensures GridSum(f, rows, width) <= 4 * GridSum(g, rows, width)
  {
    if rows > 0 {
      GridSumFourfold(f, g, rows - 1, width);
      RowSumFourfold(f, g, rows - 1, width);
    }
  }

  lemma {:induction false} RowSumMonotone(f: Position -> nat, g: Position -> nat, y: nat, n: nat)
    requires forall x :: 0 <= x < n ==> f(Position(x, y)) <= g(Position(x, y))
    ensures RowSum(f, y, n) <= RowSum(g, y, n)
  {
    if n > 0 {
      RowSumMonotone(f, g, y, n - 1);
    }
  }

  lemma {:induction false} GridSumMonotone(f: Position -> nat, g: Position -> nat, rows: nat, width: nat)
    requires forall p :: InGrid(p, rows, width) ==> f(p) <= g(p)
    ensures GridSum(f, rows, width) <= GridSum(g, rows, width)
  {
    if rows > 0 {
      GridSumMonotone(f, g, rows - 1, width);
      RowSumMonotone(f, g, rows - 1, width);
    }
  }

  lemma {:induction false} RowSumAtLeast(f: Position -> nat, y: nat, n: nat, x: nat)
    requires x < n
    ensures RowSum(f, y, n) >= f(Position(x, y))
  {
    if x < n - 1 {
      RowSumAtLeast(f, y, n - 1, x);
    }
  }

  /** A grid sum is at least any one of its terms. */
  lemma {:induction false} GridSumAtLeast(f: Position -> nat, rows: nat, width: nat, p: Position)
    requires InGrid(p, rows, width)
    ensures GridSum(f, rows, width) >= f(p)
  {
    if p.y < rows - 1 {
      GridSumAtLeast(f, rows - 1, width, p);
    } else {
      RowSumAtLeast(f, p.y, width, p.x);
    }
  }

  // ---------------------------------------------------------------------------
  // Fences
  // ---------------------------------------------------------------------------

  /** Side `d` of `p` needs a fence for region `id`: the border, or a plot of another region. */
  predicate Fenced(ids: Ids, height: nat, width: nat, id: nat, p: Position, d: Side)
  {
    match Step(p, d, height, width)
    case None => true
    case Some(q) => Get(ids, q) != Some(id)
  }

  function Indicator(b: bool): nat
  {
    if b then 1 else 0
  }

  /** The fences around a plot of region `id`. */
  function FenceCount(ids: Ids, height: nat, width: nat, id: nat, p: Position): (r: nat)
    ensures r <= 4
  {
    Indicator(Fenced(ids, height, width, id, p, West)) + Indicator(Fenced(ids, height, width, id, p, North)) +
    Indicator(Fenced(ids, height, width, id, p, South)) + Indicator(Fenced(ids, height, width, id, p, East))
  }

  /** One for each plot of region `id`. */
  function AreaCell(ids: Ids, id: nat): Position -> nat
  {
    p => Indicator(Get(ids, p) == Some(id))
  }

  /** The fences of each plot of region `id`. */
  function FenceCell(ids: Ids, height: nat, width: nat, id: nat): Position -> nat
  {
    p => if Get(ids, p) == Some(id) then FenceCount(ids, height, width, id, p) else 0
  }

  /** The number of plots of region `id`. */
  function Area(ids: Ids, height: nat, width: nat, id: nat): nat
  {
    GridSum(AreaCell(ids, id), height, width)
  }

  /** The number of fence segments around region `id`. */
  function Perimeter(ids: Ids, height: nat, width: nat, id: nat): nat
  {
    GridSum(FenceCell(ids, height, width, id), height, width)
  }

  /** The price of fencing the regions below `n`: area times perimeter, summed. */
  function Cost(ids: Ids, height: nat, width: nat, n: nat): nat
  {
    if n == 0 then 0
    else
      var area, perimeter := Area(ids, height, width, n - 1), Perimeter(ids, height, width, n - 1);
      MulMonotone(0, area, perimeter);
      Cost(ids, height, width, n - 1) + area * perimeter
  }

  /** A plot of region `id` fenced on side `d`. */
  predicate FencedPlot(ids: Ids, height: nat, width: nat, id: nat, p: Position, d: Side)
  {
    Get(ids, p) == Some(id) && Fenced(ids, height, width, id, p, d)
  }

  /** The plot before `p` along a fence on side `d`: above for west and east fences, to the left for north and south. */
  function Previous(p: Position, d: Side): Option<Position>
  {
    match d
    case West => if p.y > 0 then Some(Position(p.x, p.y - 1)) else None
    case East => if p.y > 0 then Some(Position(p.x, p.y - 1)) else None
    case North => if p.x > 0 then Some(Position(p.x - 1, p.y)) else None
    case South => if p.x > 0 then Some(Position(p.x - 1, p.y)) else None
  }

  /** A straight side of region `id` begins at `p`: it is fenced on `d` and the plot before it along the fence is not. */
  predicate SideStart(ids: Ids, height: nat, width: nat, id: nat, p: Position, d: Side)
  {
    FencedPlot(ids, height, width, id, p, d) &&
    !(Previous(p, d).Some? && FencedPlot(ids, height, width, id, Previous(p, d).value, d))
  }

  /** The vertical sides (west and east) beginning at each plot. */
  function VerticalCell(ids: Ids, height: nat, width: nat, id: nat): Position -> nat
  {
    p => Indicator(SideStart(ids, height, width, id, p, West)) + Indicator(SideStart(ids, height, width, id, p, East))
  }

  /** The horizontal sides (north and south) beginning at each plot. */
  function HorizontalCell(ids: Ids, height: nat, width: nat, id: nat): Position -> nat
  {
    p => Indicator(SideStart(ids, height, width, id, p, North)) + Indicator(SideStart(ids, height, width, id, p, South))
  }

  /** The sides beginning at `(x, y)`, given the flags of the vertical scan for the plot before it. */
  lemma VerticalAt(ids: Ids, height: nat, width: nat, id: nat, x: nat, y: nat, foundWest: bool, foundEast: bool)
    requires foundWest == (y > 0 && FencedPlot(ids, height, width, id, Position(x, y - 1), West))
    requires foundEast == (y > 0 && FencedPlot(ids, height, width, id, Position(x, y - 1), East))
    ensures VerticalCell(ids, height, width, id)(Position(x, y)) ==
      if Get(ids, Position(x, y)) != Some(id) then 0
      else Indicator(Fenced(ids, height, width, id, Position(x, y), West) && !foundWest) +
           Indicator(Fenced(ids, height, width, id, Position(x, y), East) && !foundEast)
  {
  }

  /** The sides beginning at `(x, y)`, given the flags of the horizontal scan for the plot before it. */
  lemma HorizontalAt(ids: Ids, height: nat, width: nat, id: nat, x: nat, y: nat, foundNorth: bool, foundSouth: bool)
    requires foundNorth == (x > 0 && FencedPlot(ids, height, width, id, Position(x - 1, y), North))
    requires foundSouth == (x > 0 && FencedPlot(ids, height, width, id, Position(x - 1, y), South))
    ensures HorizontalCell(ids, height, width, id)(Position(x, y)) ==
      if Get(ids, Position(x, y)) != Some(id) then 0
      else Indicator(Fenced(ids, height, width, id, Position(x, y), North) && !foundNorth) +
           Indicator(Fenced(ids, height, width, id, Position(x, y), South) && !foundSouth)
  {
  }

  /** The number of straight sides of region `id`. */
  function Sides(ids: Ids, height: nat, width: nat, id: nat): nat
  {
    ColumnGridSum(VerticalCell(ids, height, width, id), height, width) + GridSum(HorizontalCell(ids, height, width, id), height, width)
  }

  /** The bulk price of the regions below `n`: area times number of sides, summed. */
  function BulkCost(ids: Ids, height: nat, width: nat, n: nat): nat
  {
    if n == 0 then 0
    else
      var area, sides := Area(ids, height, width, n - 1), Sides(ids, height, width, n - 1);
      MulMonotone(0, area, sides);
      BulkCost(ids, height, width, n - 1) + area * sides
  }

  lemma {:induction false} RowSumZero(f: Position -> nat, y: nat, n: nat)
    requires forall x :: 0 <= x < n ==> f(Position(x, y)) == 0
    ensures RowSum(f, y, n) == 0
  {
    if n > 0 {
      RowSumZero(f, y, n - 1);
    }
  }

  lemma {:induction false} GridSumZero(f: Position -> nat, rows: nat, width: nat)
    requires forall p :: InGrid(p, rows, width) ==> f(p) == 0
    ensures GridSum(f, rows, width) == 0
  {
    if rows > 0 {
      GridSumZero(f, rows - 1, width);
      RowSumZero(f, rows - 1, width);
    }
  }

  lemma {:induction false} RowSumOnes(f: Position -> nat, y: nat, n: nat)
    requires forall x :: 0 <= x < n ==> f(Position(x, y)) == 1
    ensures RowSum(f, y, n) == n
  {
    if n > 0 {
      RowSumOnes(f, y, n - 1);
    }
  }

  lemma {:induction false} GridSumOnes(f: Position -> nat, rows: nat, width: nat)
    requires forall p :: InGrid(p, rows, width) ==> f(p) == 1
    ensures GridSum(f, rows, width) == rows * width
  {
    if rows > 0 {
      GridSumOnes(f, rows - 1, width);
      RowSumOnes(f, rows - 1, width);
      assert rows * width == (rows - 1) * width + width;
    }
  }

  /** Each plot's fences are at most four, so a region's perimeter is at most four times its area. */
  lemma PerimeterAtMostFourTimesArea(ids: Ids, height: nat, width: nat, id: nat)
    ensures Perimeter(ids, height, width, id) <= 4 * Area(ids, height, width, id)
  {
    GridSumFourfold(FenceCell(ids, height, width, id), AreaCell(ids, id), height, width);
  }

  /** The sides beginning at each plot. */
  function SideCell(ids: Ids, height: nat, width: nat, id: nat): Position -> nat
  {
    p => Indicator(SideStart(ids, height, width, id, p, West)) + Indicator(SideStart(ids, height, width, id, p, East)) +
         Indicator(SideStart(ids, height, width, id, p, North)) + Indicator(SideStart(ids, height, width, id, p, South))
  }

  /** Every side begins with a fenced plot, so there are no more sides than fences. */
  lemma SidesAtMostPerimeter(ids: Ids, height: nat, width: nat, id: nat)
    ensures Sides(ids, height, width, id) <= Perimeter(ids, height, width, id)
  {
    var v, h := VerticalCell(ids, height, width, id), HorizontalCell(ids, height, width, id);
    ColumnsRows(v, height, width);
    GridSumAdd(v, h, SideCell(ids, height, width, id), height, width);
    GridSumMonotone(SideCell(ids, height, width, id), FenceCell(ids, height, width, id), height, width);
  }

  /** Pricing by sides never costs more than pricing by perimeter. */
  lemma {:induction false} BulkCostAtMostCost(ids: Ids, height: nat, width: nat, n: nat)
    ensures BulkCost(ids, height, width, n) <= Cost(ids, height, width, n)
  {
    if n > 0 {
      BulkCostAtMostCost(ids, height, width, n - 1);
      SidesAtMostPerimeter(ids, height, width, n - 1);
      MulMonotone(Sides(ids, height, width, n - 1), Perimeter(ids, height, width, n - 1), Area(ids, height, width, n - 1));
    }
  }

  /** A region without plots has no area, no fence and no side. */
  lemma UnusedRegion(ids: Ids, height: nat, width: nat, id: nat)
    requires forall p :: InGrid(p, height, width) ==> Get(ids, p) != Some(id)
    ensures Area(ids, height, width, id) == 0 && Perimeter(ids, height, width, id) == 0 && Sides(ids, height, width, id) == 0
  {
    GridSumZero(AreaCell(ids, id), height, width);
    GridSumZero(FenceCell(ids, height, width, id), height, width);
    ColumnsRows(VerticalCell(ids, height, width, id), height, width);
    GridSumZero(VerticalCell(ids, height, width, id), height, width);
    GridSumZero(HorizontalCell(ids, height, width, id), height, width);
  }

  /** A region with a plot has an area. */
  lemma UsedRegion(ids: Ids, height: nat, width: nat, id: nat, p: Position)
    requires InGrid(p, height, width) && Get(ids, p) == Some(id)
    ensures Area(ids, height, width, id) >= 1
  {
    GridSumAtLeast(AreaCell(ids, id), height, width, p);
  }

  /** The plots carrying one of the ids below `n`. */
  function LabelledBelow(ids: Ids, n: nat): Position -> nat
  {
    p => Indicator(Get(ids, p).Some? && Get(ids, p).value < n)
  }

  /** The areas of the regions below `n`, summed. */
  function TotalArea(ids: Ids, height: nat, width: nat, n: nat): nat
  {
    if n == 0 then 0 else TotalArea(ids, height, width, n - 1) + Area(ids, height, width, n - 1)
  }

  lemma {:induction false} TotalAreaCounts(ids: Ids, height: nat, width: nat, n: nat)
    ensures TotalArea(ids, height, width, n) == GridSum(LabelledBelow(ids, n), height, width)
  {
    if n == 0 {
      GridSumZero(LabelledBelow(ids, 0), height, width);
    } else {
      TotalAreaCounts(ids, height, width, n - 1);
      GridSumAdd(LabelledBelow(ids, n - 1), AreaCell(ids, n - 1), LabelledBelow(ids, n), height, width);
    }
  }

  /** When every plot has an id below `n`, the regions below `n` cover the garden exactly once. */
  lemma AreasCoverGarden(ids: Ids, height: nat, width: nat, n: nat)
    requires forall p :: InGrid(p, height, width) ==> Get(ids, p).Some? && Get(ids, p).value < n
    ensures TotalArea(ids, height, width, n) == height * width
  {
    TotalAreaCounts(ids, height, width, n);
    GridSumOnes(LabelledBelow(ids, n), height, width);
  }

  // ---------------------------------------------------------------------------
  // The garden
  // ---------------------------------------------------------------------------

  /** The width of the garden: the length of the first row. */
  function GardenWidth(plants: seq<seq<char>>): nat
  {
    if |plants| == 0 then 0 else |plants[0]|
  }

  /** No row is shorter than the first, so every plot the source reads exists. */
  predicate Wide(plants: seq<seq<char>>)
  {
    forall y :: 0 <= y < |plants| ==> |plants[y]| >= GardenWidth(plants)
  }

  /** A grid of unmarked plots. */
  function Blank(height: nat, width: nat): (ids: Ids)
    ensures |ids| == height && forall y :: 0 <= y < height ==> |ids[y]| == width
    ensures forall p :: Get(ids, p).None?
  {
    seq(height, _ => seq(width, _ => None))
  }

  class Garden {
    const plants: seq<seq<char>>
    var ids: Ids
    var maxId: nat
    /** The plot each region's fill started from, by id. */
    ghost var starts: seq<Position>

    function Height(): nat { |plants| }

    function Width(): nat { GardenWidth(plants) }

    ghost predicate Valid()
      reads this
    {
      Wide(plants) && |ids| == Height() && forall y :: 0 <= y < Height() ==> |ids[y]| == Width()
    }

    /**
     * What `assign_ids` leaves: every plot has an id below `maxId`,
     * neighbours of the same plant share their id, and region `k` is the
     * one filled from `starts[k]`: the first of its plots in scan order,
     * each later region starting further on, all plots of a region growing
     * the same plant.
     */
    ghost predicate Labelled()
      reads this
    {
      |starts| == maxId && Labelling(plants, ids, Height(), Width(), starts)
    }

    /** `Garden::new`: every plot unmarked, no region yet. */
    constructor(input: string)
      ensures plants == TrimmedLines(input) && ids == Blank(Height(), Width()) && maxId == 0 && starts == []
      ensures Wide(plants) ==> Valid()
    {
      plants := TrimmedLines(input);
      ids := Blank(|TrimmedLines(input)|, GardenWidth(TrimmedLines(input)));
      maxId := 0;
      starts := [];
    }

    /**
     * `adjacent_plots`: the unmarked neighbours of `curr` with its plant,
     * looked at west, north, south, east.
     */
    function AdjacentPlots(curr: Position): (r: seq<Position>)
      reads this
      requires Valid() && InGrid(curr, Height(), Width())
      ensures forall q :: q in r ==>
        InGrid(q, Height(), Width()) && Adjacent(curr, q) && Get(ids, q).None? && PlantAt(plants, q) == PlantAt(plants, curr)
      ensures forall d :: OpenToward(plants, ids, Height(), Width(), curr, d) ==> Step(curr, d, Height(), Width()).value in r
    {
      Toward(plants, ids, Height(), Width(), curr, West) + Toward(plants, ids, Height(), Width(), curr, North) +
      Toward(plants, ids, Height(), Width(), curr, South) + Toward(plants, ids, Height(), Width(), curr, East)
    }

    /**
     * `mark_plots`: marks `curr` with `id`, then every unmarked neighbour of
     * the same plant, recursively. It only marks: plots already marked keep
     * their id, the new ones get `id` and carry `curr`'s plant, and the fill
     * leaves no new open plot behind, `curr` included.
     */
    method MarkPlots(curr: Position, id: nat)
      requires Valid() && InGrid(curr, Height(), Width())
      requires Filling(plants, ids, Height(), Width(), id)
      requires Get(ids, curr).None? || Get(ids, curr) == Some(id)
      modifies this
      decreases |Unmarked(ids, Height(), Width()) - {curr}|
      ensures Valid() && maxId == old(maxId) && starts == old(starts)
      ensures Get(ids, curr) == Some(id) && !Open(plants, ids, Height(), Width(), curr)
      ensures Filling(plants, ids, Height(), Width(), id)
      ensures Grows(plants, old(ids), ids, Height(), Width(), id, PlantAt(plants, curr))
      ensures Spreads(plants, old(ids), ids, Height(), Width(), curr)
    {
      var height, width := Height(), Width();
      ghost var before := ids;
      MarkKeepsFilling(plants, ids, height, width, id, curr);
      ids := Set(ids, curr, Some(id));
      ghost var marked := ids;
      var adjacent := AdjacentPlots(curr);
      assert forall q :: q in adjacent ==>
        InGrid(q, height, width) && Adjacent(curr, q) && Get(marked, q).None? && PlantAt(plants, q) == PlantAt(plants, curr);
      assert forall d :: OpenToward(plants, marked, height, width, curr, d) ==> Step(curr, d, height, width).value in adjacent;
      assert forall j :: 0 <= j < |adjacent| ==> InGrid(adjacent[j], height, width);
      for i := 0 to |adjacent|
        invariant Valid() && maxId == old(maxId) && starts == old(starts)
        invariant Get(ids, curr) == Some(id)
        invariant Filling(plants, ids, height, width, id)
        invariant Grows(plants, marked, ids, height, width, id, PlantAt(plants, curr))
        invariant Spreads(plants, marked, ids, height, width, curr)
        invariant forall j :: 0 <= j < i ==> Get(ids, adjacent[j]).Some?
      {
        var next := adjacent[i];
        FewerUnmarked(before, marked, ids, height, width, curr, next);
        ghost var prev := ids;
        MarkPlots(next, id);
        FillNeighbour(plants, marked, prev, ids, height, width, id, curr, adjacent, i);
      }
      CurrClosed(plants, marked, ids, height, width, curr, adjacent);
      GrowsFromMark(plants, before, ids, height, width, id, curr);
      SpreadsFromMark(plants, before, ids, height, width, id, curr);
    }

    /**
     * One step of the scan of `assign_ids` at an unmarked plot: the region
     * of `cursor` is filled with the next id, and `cursor` is recorded as
     * its first plot.
     */
    method FillRegion(cursor: Position, nextId: nat)
      requires Valid() && InGrid(cursor, Height(), Width()) && Get(ids, cursor).None? && |starts| == nextId
      requires Closed(plants, ids, Height(), Width())
      requires Numbered(plants, ids, Height(), Width(), starts, cursor)
      modifies this
      ensures Valid() && maxId == old(maxId) && starts == old(starts) + [cursor]
      ensures Closed(plants, ids, Height(), Width())
      ensures Numbered(plants, ids, Height(), Width(), starts, Position(cursor.x + 1, cursor.y))
    {
      ghost var before := ids;
      ClosedStartsFilling(plants, ids, Height(), Width(), nextId);
      MarkPlots(cursor, nextId);
      FillingEndsClosed(plants, ids, Height(), Width(), nextId);
      NumberedFill(plants, before, ids, Height(), Width(), starts, cursor);
      starts := starts + [cursor];
    }

    /**
     * `assign_ids`: scans the plots row by row and fills a new region from
     * every plot still unmarked.
     */
    method AssignIds()
      requires Valid() && forall p :: InGrid(p, Height(), Width()) ==> Get(ids, p).None?
      modifies this
      ensures Valid() && Labelled()
    {
      var height, width := Height(), Width();
      var nextId: nat := 0;
      starts := [];
      assert Closed(plants, ids, height, width);
      for y := 0 to height
        invariant Valid() && |starts| == nextId
        invariant Closed(plants, ids, height, width)
        invariant Numbered(plants, ids, height, width, starts, Position(0, y))
      {
        for x := 0 to width
          invariant Valid() && |starts| == nextId
          invariant Closed(plants, ids, height, width)
          invariant Numbered(plants, ids, height, width, starts, Position(x, y))
        {
          var cursor := Position(x, y);
          if ids[y][x].None? {
            FillRegion(cursor, nextId);
            nextId := nextId + 1;
          } else {
            NumberedSkip(plants, ids, height, width, starts, cursor);
          }
        }
        NumberedRow(plants, ids, height, width, starts, y);
      }
      NumberedDone(plants, ids, height, width, starts);
      maxId := nextId;
    }

    /**
     * `find_adjacent_fence`: the fences around `curr` if it belongs to region
     * `id`, counting neighbours of another region and the border of the garden.
     */
    function FindAdjacentFence(curr: Position, id: nat): (r: nat)
      reads this
      requires Valid() && InGrid(curr, Height(), Width())
      ensures r == FenceCell(ids, Height(), Width(), id)(curr)
    {
      if Get(ids, curr) != Some(id) then 0
      else
        var maxX, maxY := Width() - 1, Height() - 1;
        (if curr.x > 0 && Get(ids, Position(curr.x - 1, curr.y)) != Some(id) then 1 else 0) +
        (if curr.y > 0 && Get(ids, Position(curr.x, curr.y - 1)) != Some(id) then 1 else 0) +
        (if curr.y < maxY && Get(ids, Position(curr.x, curr.y + 1)) != Some(id) then 1 else 0) +
        (if curr.x < maxX && Get(ids, Position(curr.x + 1, curr.y)) != Some(id) then 1 else 0) +
        (if curr.x == 0 then 1 else 0) + (if curr.y == 0 then 1 else 0) +
        (if curr.x == maxX then 1 else 0) + (if curr.y == maxY then 1 else 0)
    }

    /** `calc_area`: the number of plots of region `id`. */
    method CalcArea(id: nat) returns (result: nat)
      requires Valid()
      ensures result == Area(ids, Height(), Width(), id)
    {
      ghost var f := AreaCell(ids, id);
      result := 0;
      for y := 0 to Height()
        invariant result == GridSum(f, y, Width())
      {
        for x := 0 to Width()
          invariant result == GridSum(f, y, Width()) + RowSum(f, y, x)
        {
          if ids[y][x] == Some(id) {
            result := result + 1;
          }
        }
      }
    }

    /** `calc_perimeter`: the fences around region `id`. */
    method CalcPerimeter(id: nat) returns (result: nat)
      requires Valid()
      ensures result == Perimeter(ids, Height(), Width(), id)
    {
      ghost var f := FenceCell(ids, Height(), Width(), id);
      result := 0;
      for y := 0 to Height()
        invariant result == GridSum(f, y, Width())
      {
        for x := 0 to Width()
          invariant result == GridSum(f, y, Width()) + RowSum(f, y, x)
        {
          result := result + FindAdjacentFence(Position(x, y), id);
        }
      }
    }

    /** `calculate_cost`: area times perimeter, summed over the regions found. */
    method CalculateCost() returns (result: nat)
      requires Valid()
      ensures result == Cost(ids, Height(), Width(), maxId)
    {
      result := 0;
      for id := 0 to maxId
        invariant result == Cost(ids, Height(), Width(), id)
      {
        var area := CalcArea(id);
        var perimeter := CalcPerimeter(id);
        MulMonotone(0, area, perimeter);
        assert Cost(ids, Height(), Width(), id + 1) == result + area * perimeter;
        result := result + area * perimeter;
      }
    }

    function IsPlantWest(x: nat, y: nat, id: nat): (r: bool)
      reads this
      requires Valid() && InGrid(Position(x, y), Height(), Width())
      ensures r == !Fenced(ids, Height(), Width(), id, Position(x, y), West)
    {
      x > 0 && ids[y][x - 1] == Some(id)
    }

    function IsPlantEast(x: nat, y: nat, id: nat): (r: bool)
      reads this
      requires Valid() && InGrid(Position(x, y), Height(), Width())
      ensures r == !Fenced(ids, Height(), Width(), id, Position(x, y), East)
    {
      var maxX := Width() - 1;
      x < maxX && ids[y][x + 1] == Some(id)
    }

    function IsPlantNorth(x: nat, y: nat, id: nat): (r: bool)
      reads this
      requires Valid() && InGrid(Position(x, y), Height(), Width())
      ensures r == !Fenced(ids, Height(), Width(), id, Position(x, y), North)
    {
      y > 0 && ids[y - 1][x] == Some(id)
    }

    function IsPlantSouth(x: nat, y: nat, id: nat): (r: bool)
      reads this
      requires Valid() && InGrid(Position(x, y), Height(), Width())
      ensures r == !Fenced(ids, Height(), Width(), id, Position(x, y), South)
    {
      var maxY := Height() - 1;
      y < maxY && ids[y + 1][x] == Some(id)
    }

    /**
     * `count_vertical_edges`: scans each column top to bottom, counting the
     * west and east sides that begin in it.
     */
    method CountVerticalEdges(id: nat) returns (result: nat)
      requires Valid()
      ensures result == ColumnGridSum(VerticalCell(ids, Height(), Width(), id), Height(), Width())
    {
      result := 0;
      for x := 0 to Width()
        invariant result == ColumnGridSum(VerticalCell(ids, Height(), Width(), id), Height(), x)
      {
        var column := VerticalEdgesInColumn(x, id);
        result := result + column;
      }
    }

    /**
     * One column of `count_vertical_edges`: a flag per side remembers
     * whether the plot above was a fenced plot of the region, and a side
     * is counted where a fence begins.
     */
    method VerticalEdgesInColumn(x: nat, id: nat) returns (result: nat)
      requires Valid() && x < Width()
      ensures result == ColumnSum(VerticalCell(ids, Height(), Width(), id), x, Height())
    {
      result := 0;
      var foundWest, foundEast := false, false;
      for y := 0 to Height()
        invariant result == ColumnSum(VerticalCell(ids, Height(), Width(), id), x, y)
        invariant foundWest == (y > 0 && FencedPlot(ids, Height(), Width(), id, Position(x, y - 1), West))
        invariant foundEast == (y > 0 && FencedPlot(ids, Height(), Width(), id, Position(x, y - 1), East))
      {
        var west, east, added := VerticalPlot(x, y, id, foundWest, foundEast);
        foundWest, foundEast, result := west, east, result + added;
      }
    }

    /**
     * `count_horizontal_edges`: scans each row left to right, counting the
     * north and south sides that begin in it.
     */
    method CountHorizontalEdges(id: nat) returns (result: nat)
      requires Valid()
      ensures result == GridSum(HorizontalCell(ids, Height(), Width(), id), Height(), Width())
    {
      result := 0;
      for y := 0 to Height()
        invariant result == GridSum(HorizontalCell(ids, Height(), Width(), id), y, Width())
      {
        var row := HorizontalEdgesInRow(y, id);
        result := result + row;
      }
    }

    /** One row of `count_horizontal_edges`, with a flag per side as for the columns. */
    method HorizontalEdgesInRow(y: nat, id: nat) returns (result: nat)
      requires Valid() && y < Height()
      ensures result == RowSum(HorizontalCell(ids, Height(), Width(), id), y, Width())
    {
      ghost var f := HorizontalCell(ids, Height(), Width(), id);
      result := 0;
      var foundNorth, foundSouth := false, false;
      var x := 0;
      while x < Width()
        invariant x <= Width()
        invariant result == RowSum(f, y, x)
        invariant foundNorth == (x > 0 && FencedPlot(ids, Height(), Width(), id, Position(x - 1, y), North))
        invariant foundSouth == (x > 0 && FencedPlot(ids, Height(), Width(), id, Position(x - 1, y), South))
      {
        var north, south, added := HorizontalPlot(x, y, id, foundNorth, foundSouth);
        foundNorth, foundSouth, result := north, south, result + added;
        x := x + 1;
      }
    }

    /**
     * The loop body of `count_vertical_edges` at plot `(x, y)`: a flag
     * per side says whether the previous plot was a fenced plot of the
     * region; a side is counted where a fence follows none.
     */
    method VerticalPlot(x: nat, y: nat, id: nat, foundWest: bool, foundEast: bool) returns (west: bool, east: bool, added: nat)
      requires Valid() && InGrid(Position(x, y), Height(), Width())
      requires foundWest == (y > 0 && FencedPlot(ids, Height(), Width(), id, Position(x, y - 1), West))
      requires foundEast == (y > 0 && FencedPlot(ids, Height(), Width(), id, Position(x, y - 1), East))
      ensures west == FencedPlot(ids, Height(), Width(), id, Position(x, y), West)
      ensures east == FencedPlot(ids, Height(), Width(), id, Position(x, y), East)
      ensures added == VerticalCell(ids, Height(), Width(), id)(Position(x, y))
    {
      VerticalAt(ids, Height(), Width(), id, x, y, foundWest, foundEast);
      west, east, added := foundWest, foundEast, 0;
      if ids[y][x] != Some(id) {
        west, east := false, false;
      } else {
        if IsPlantWest(x, y, id) {
          if foundWest {
            west := false;
          }
        } else if !foundWest {
          west := true;
          added := added + 1;
        }
        if IsPlantEast(x, y, id) {
          if foundEast {
            east := false;
          }
        } else if !foundEast {
          east := true;
          added := added + 1;
        }
      }
    }

    /**
     * The loop body of `count_horizontal_edges` at plot `(x, y)`: a flag
     * per side says whether the previous plot was a fenced plot of the
     * region; a side is counted where a fence follows none.
     */
    method HorizontalPlot(x: nat, y: nat, id: nat, foundNorth: bool, foundSouth: bool) returns (north: bool, south: bool, added: nat)
      requires Valid() && InGrid(Position(x, y), Height(), Width())
      requires foundNorth == (x > 0 && FencedPlot(ids, Height(), Width(), id, Position(x - 1, y), North))
      requires foundSouth == (x > 0 && FencedPlot(ids, Height(), Width(), id, Position(x - 1, y), South))
      ensures north == FencedPlot(ids, Height(), Width(), id, Position(x, y), North)
      ensures south == FencedPlot(ids, Height(), Width(), id, Position(x, y), South)
      ensures added == HorizontalCell(ids, Height(), Width(), id)(Position(x, y))
    {
      HorizontalAt(ids, Height(), Width(), id, x, y, foundNorth, foundSouth);
      north, south, added := foundNorth, foundSouth, 0;
      if ids[y][x] != Some(id) {
        north, south := false, false;
      } else {
        if IsPlantNorth(x, y, id) {
          if foundNorth {
            north := false;
          }
        } else if !foundNorth {
          north := true;
          added := added + 1;
        }
        if IsPlantSouth(x, y, id) {
          if foundSouth {
            south := false;
          }
        } else if !foundSouth {
          south := true;
          added := added + 1;
        }
      }
    }

    /** `calc_num_sides`: the vertical and the horizontal sides of region `id`. */
    method CalcNumSides(id: nat) returns (result: nat)
      requires Valid()
      ensures result == Sides(ids, Height(), Width(), id)
    {
      result := CountVerticalEdges(id);
      var horizontal := CountHorizontalEdges(id);
      result := result + horizontal;
    }

    /** `calculate_bulk_cost`: area times number of sides, summed over the regions found. */
    method CalculateBulkCost() returns (result: nat)
      requires Valid()
      ensures result == BulkCost(ids, Height(), Width(), maxId)
    {
      result := 0;
      for id := 0 to maxId
        invariant result == BulkCost(ids, Height(), Width(), id)
      {
        var area := CalcArea(id);
        var sides := CalcNumSides(id);
        MulMonotone(0, area, sides);
        assert BulkCost(ids, Height(), Width(), id + 1) == result + area * sides;
        result := result + area * sides;
      }
    }
  }

  /** `part_one`: the price of fencing every region found in the garden read from `input`. */
  method PartOne(input: string) returns (r: Option<nat>, ghost garden: Garden)
    requires Wide(TrimmedLines(input))
    ensures garden.plants == TrimmedLines(input) && garden.Valid() && garden.Labelled()
    ensures r == Some(Cost(garden.ids, garden.Height(), garden.Width(), garden.maxId))
    ensures forall ids, starts :: Labelling(TrimmedLines(input), ids, garden.Height(), garden.Width(), starts) ==>
      r == Some(Cost(ids, garden.Height(), garden.Width(), |starts|))
  {
    var g := new Garden(input);
    g.AssignIds();
    var cost := g.CalculateCost();
    r, garden := Some(cost), g;
    forall ids, starts | Labelling(TrimmedLines(input), ids, g.Height(), g.Width(), starts)
      ensures g.ids == ids && g.maxId == |starts|
    {
      LabellingUnique(g.plants, g.ids, ids, g.Height(), g.Width(), g.starts, starts);
    }
  }

  /** `part_two`: the bulk price of fencing every region found in the garden read from `input`. */
  method PartTwo(input: string) returns (r: Option<nat>, ghost garden: Garden)
    requires Wide(TrimmedLines(input))
    ensures garden.plants == TrimmedLines(input) && garden.Valid() && garden.Labelled()
    ensures r == Some(BulkCost(garden.ids, garden.Height(), garden.Width(), garden.maxId))
    ensures forall ids, starts :: Labelling(TrimmedLines(input), ids, garden.Height(), garden.Width(), starts) ==>
      r == Some(BulkCost(ids, garden.Height(), garden.Width(), |starts|))
  {
    var g := new Garden(input);
    g.AssignIds();
    var cost := g.CalculateBulkCost();
    r, garden := Some(cost), g;
    forall ids, starts | Labelling(TrimmedLines(input), ids, g.Height(), g.Width(), starts)
      ensures g.ids == ids && g.maxId == |starts|
    {
      LabellingUnique(g.plants, g.ids, ids, g.Height(), g.Width(), g.starts, starts);
    }
  }
}
