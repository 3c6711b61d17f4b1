/**
 * Day 13: claw machines. Button A moves the claw by `a` and costs 3
 * tokens, button B moves it by `b` and costs 1; a machine is won by a
 * number of presses of each that lands exactly on the prize. The solvers
 * search for press counts by brute force.
 */
module Day13 {
  import opened Wrappers
  import opened Text

  datatype Button = Button(x: nat, y: nat)

  datatype Prize = Prize(x: nat, y: nat)

  datatype Machine = Machine(a: Button, b: Button, prize: Prize)

  /** Both buttons move along both axes: `solve` divides by each coordinate. */
  predicate Movable(m: Machine)
  {
    m.a.x > 0 && m.a.y > 0 && m.b.x > 0 && m.b.y > 0
  }

  /** Both buttons move along the x axis: `solve_optimized` divides by the x moves only. */
  predicate MovesAlongX(m: Machine)
  {
    m.a.x > 0 && m.b.x > 0
  }

  /** `a` presses of A and `b` of B land on the prize. */
  predicate Hits(m: Machine, a: nat, b: nat)
  {
    m.prize.x == m.a.x * a + m.b.x * b && m.prize.y == m.a.y * a + m.b.y * b
  }

  /** `try_solve`: the tokens of the presses when they win the prize. */
  function TrySolve(m: Machine, a: nat, b: nat): (r: Option<nat>)
    ensures r.Some? <==> Hits(m, a, b)
    ensures r.Some? ==> r.value == a * 3 + b
  {
    if Hits(m, a, b) then Some(a * 3 + b) else None
  }

  /** `try_solve(80, 40)` on the first example machine costs 280 tokens. */
  lemma TrySolveExample()
    ensures TrySolve(Machine(Button(94, 34), Button(22, 67), Prize(8400, 5400)), 80, 40) == Some(280)
  {
  }

  // ---------------------------------------------------------------------------
  // `solve`: the cheapest win in a box of press counts
  // ---------------------------------------------------------------------------

  /** How `solve` keeps its best cost: a new cost replaces it only when lower. */
  function MinOpt(best: Option<nat>, result: Option<nat>): (r: Option<nat>)
    ensures r.Some? <==> best.Some? || result.Some?
    ensures r.Some? ==> (r == best || r == result)
    ensures r.Some? && best.Some? ==> r.value <= best.value
    ensures r.Some? && result.Some? ==> r.value <= result.value
  {
    if result.Some? then
      if best.Some? then (if result.value < best.value then result else best) else result
    else best
  }

  lemma MinOptAssoc(x: Option<nat>, y: Option<nat>, z: Option<nat>)
    ensures MinOpt(MinOpt(x, y), z) == MinOpt(x, MinOpt(y, z))
  {
  }

  /** The best cost over the presses `(a, b)` with `b < nb`, in the order `solve` tries them. */
  function BestRow(m: Machine, a: nat, nb: nat): Option<nat>
  {
    if nb == 0 then None else MinOpt(BestRow(m, a, nb - 1), TrySolve(m, a, nb - 1))
  }

  /** The best cost over the presses `(a, b)` with `a < na` and `b < nb`. */
  function BestBox(m: Machine, na: nat, nb: nat): Option<nat>
  {
    if na == 0 then None else MinOpt(BestBox(m, na - 1, nb), BestRow(m, na - 1, nb))
  }

  /** `r` is the least cost of a win with fewer than `na` presses of A and `nb` of B, if any. */
  ghost predicate Cheapest(m: Machine, na: nat, nb: nat, r: Option<nat>)
  {
    (r.Some? <==> exists a: nat, b: nat :: a < na && b < nb && Hits(m, a, b))
    && (r.Some? ==> exists a: nat, b: nat :: a < na && b < nb && Hits(m, a, b) && r.value == a * 3 + b)
    && (r.Some? ==> forall a: nat, b: nat :: a < na && b < nb && Hits(m, a, b) ==> r.value <= a * 3 + b)
  }

  lemma {:induction false} BestRowCheapest(m: Machine, a: nat, nb: nat)
    ensures var r := BestRow(m, a, nb);
      (r.Some? <==> exists b: nat :: b < nb && Hits(m, a, b))
      && (r.Some? ==> exists b: nat :: b < nb && Hits(m, a, b) && r.value == a * 3 + b)
      && (r.Some? ==> forall b: nat :: b < nb && Hits(m, a, b) ==> r.value <= a * 3 + b)
  {
    if nb > 0 {
      BestRowCheapest(m, a, nb - 1);
    }
  }

  lemma {:induction false} BestBoxCheapest(m: Machine, na: nat, nb: nat)
    ensures Cheapest(m, na, nb, BestBox(m, na, nb))
  {
    if na > 0 {
      BestBoxCheapest(m, na - 1, nb);
      BestRowCheapest(m, na - 1, nb);
    }
  }

  function Min(a: nat, b: nat): nat
  {
    if a < b then a else b
  }

  /** `max_a` of `solve`: the presses of A that fit in the prize on both axes. */
  function MaxA(m: Machine): nat
    requires Movable(m)
  {
    Min(m.prize.x / m.a.x, m.prize.y / m.a.y)
  }

  function MaxB(m: Machine): nat
    requires Movable(m)
  {
    Min(m.prize.x / m.b.x, m.prize.y / m.b.y)
  }

  /**
   * `solve`: try every `a < max_a` and `b < max_b`, keeping the cheapest
   * win; `None` when no pair wins.
   */
  method Solve(m: Machine) returns (r: Option<nat>)
    requires Movable(m)
    ensures r == BestBox(m, MaxA(m), MaxB(m))
  {
    var maxA := Min(m.prize.x / m.a.x, m.prize.y / m.a.y);
    var maxB := Min(m.prize.x / m.b.x, m.prize.y / m.b.y);
    var minSolution: Option<nat> := None;
    for aPresses := 0 to maxA
      invariant minSolution == BestBox(m, aPresses, maxB)
    {
      for bPresses := 0 to maxB
        invariant minSolution == MinOpt(BestBox(m, aPresses, maxB), BestRow(m, aPresses, bPresses))
      {
        var result := TrySolve(m, aPresses, bPresses);
        MinOptAssoc(BestBox(m, aPresses, maxB), BestRow(m, aPresses, bPresses), result);
        if result.Some? {
          var cost := result.value;
          if minSolution.Some? {
            var minCost := minSolution.value;
            if cost < minCost {
              minSolution := result;
            }
          } else {
            minSolution := result;
          }
        }
      }
    }
    r := minSolution;
  }

  /** What `solve` answers: the cheapest win with fewer than `max_a` and `max_b` presses. */
  lemma SolveCheapest(m: Machine)
    requires Movable(m)
    ensures Cheapest(m, MaxA(m), MaxB(m), BestBox(m, MaxA(m), MaxB(m)))
  {
    BestBoxCheapest(m, MaxA(m), MaxB(m));
  }

  /**
   * The bounds of `solve` are exclusive, so a win that uses all the presses
   * that fit is missed: with both buttons moving by `(1, 1)` and the prize
   * at `(1, 1)`, one press of B wins, yet `solve` finds nothing.
   */
  lemma SolveMissesBound()
    ensures var m := Machine(Button(1, 1), Button(1, 1), Prize(1, 1));
      Hits(m, 0, 1) && BestBox(m, MaxA(m), MaxB(m)) == None
  {
    var m := Machine(Button(1, 1), Button(1, 1), Prize(1, 1));
    assert MaxA(m) == 1 && MaxB(m) == 1;
    assert BestRow(m, 0, 1) == None;
  }

  /** A win never takes more presses than fit in the prize. */
  lemma WinFits(m: Machine, a: nat, b: nat)
    requires Movable(m) && Hits(m, a, b)
    ensures a <= MaxA(m) && b <= MaxB(m)
  {
    DivBound(a, m.a.x, m.b.x * b, m.prize.x);
    DivBound(a, m.a.y, m.b.y * b, m.prize.y);
    DivBound(b, m.b.x, m.a.x * a, m.prize.x);
    DivBound(b, m.b.y, m.a.y * a, m.prize.y);
  }

  /** From `k * d + rest == total`, `k` is at most `total / d`. */
  lemma DivBound(k: nat, d: nat, rest: nat, total: nat)
    requires d > 0 && d * k + rest == total
    ensures k <= total / d
  {
    if k > total / d {
      MulLe(d, total / d + 1, k);
    }
  }

  lemma MulLe(d: nat, a: nat, b: nat)
    requires a <= b
    ensures d * a <= d * b
  {
  }

  /** `solve` with the bounds it evidently intends: `max_a` and `max_b` included. */
  function SolveInclusive(m: Machine): Option<nat>
    requires Movable(m)
  {
    BestBox(m, MaxA(m) + 1, MaxB(m) + 1)
  }

  /** With the bounds included, the search finds the cheapest of all wins. */
  lemma SolveInclusiveCheapest(m: Machine)
    requires Movable(m)
    ensures var r := SolveInclusive(m);
      (r.Some? <==> exists a: nat, b: nat :: Hits(m, a, b))
      && (r.Some? ==> exists a: nat, b: nat :: Hits(m, a, b) && r.value == a * 3 + b)
      && (r.Some? ==> forall a: nat, b: nat :: Hits(m, a, b) ==> r.value <= a * 3 + b)
  {
    BestBoxCheapest(m, MaxA(m) + 1, MaxB(m) + 1);
    forall a: nat, b: nat | Hits(m, a, b)
      ensures a < MaxA(m) + 1 && b < MaxB(m) + 1
    {
      WinFits(m, a, b);
    }
  }

  // ---------------------------------------------------------------------------
  // `solve_optimized`: the first win by presses of A
  // ---------------------------------------------------------------------------

  /** `max_a` of `solve_optimized`: the presses of A that fit in the prize's x. */
  function MaxOptimized(m: Machine): nat
    requires MovesAlongX(m)
  {
    m.prize.x / m.a.x
  }

  /** Fewer than `max_a` presses of A leave room on the x axis. */
  lemma PressesFit(m: Machine, a: nat)
    requires MovesAlongX(m) && a < MaxOptimized(m)
    ensures a * m.a.x <= m.prize.x
  {
    var q := m.prize.x / m.a.x;
    MulLe(m.a.x, a, q);
    assert m.a.x * q <= m.prize.x;
  }

  /** The presses of B that `solve_optimized` pairs with `a` presses of A. */
  function PressesB(m: Machine, a: nat): nat
    requires MovesAlongX(m) && a * m.a.x <= m.prize.x
  {
    (m.prize.x - a * m.a.x) / m.b.x
  }

  /** The first `a` from `from` on, below `n`, whose pair wins: its cost. */
  function FirstFrom(m: Machine, from: nat, n: nat): Option<nat>
    requires MovesAlongX(m) && n <= MaxOptimized(m)
    decreases n - from
  {
    if from >= n then None
    else
      PressesFit(m, from);
      var r := TrySolve(m, from, PressesB(m, from));
      if r.Some? then r else FirstFrom(m, from + 1, n)
  }

  /**
   * `solve_optimized`: for `a = 0, 1, …` below `prize.x / a.x`, take the
   * presses of B that fill the rest of the x axis and stop at the first win.
   */
  method SolveOptimized(m: Machine) returns (r: Option<nat>)
    requires MovesAlongX(m)
    ensures r == FirstFrom(m, 0, MaxOptimized(m))
  {
    var maxA := m.prize.x / m.a.x;
    var minSolution: Option<nat> := None;
    for aPresses := 0 to maxA
      invariant FirstFrom(m, 0, maxA) == FirstFrom(m, aPresses, maxA)
    {
      PressesFit(m, aPresses);
      var bPresses := (m.prize.x - aPresses * m.a.x) / m.b.x;
      var result := TrySolve(m, aPresses, bPresses);
      if result.Some? {
        minSolution := result;
        break;
      }
    }
    r := minSolution;
  }

  /** A win with `a` presses of A leaves exactly `PressesB(m, a)` presses of B. */
  lemma WinPressesB(m: Machine, a: nat, b: nat)
    requires MovesAlongX(m) && Hits(m, a, b)
    ensures a * m.a.x <= m.prize.x && PressesB(m, a) == b
  {
    var rest := m.prize.x - a * m.a.x;
    assert rest == b * m.b.x;
    DivUnique(rest, m.b.x, b, 0);
  }

  /**
   * What `solve_optimized` answers: the win with the fewest presses of A
   * below the bound, and `None` exactly when there is none there.
   */
  lemma {:induction false} FirstFromFirst(m: Machine, from: nat, n: nat)
    requires MovesAlongX(m) && n <= MaxOptimized(m)
    ensures var r := FirstFrom(m, from, n);
      (r.Some? <==> exists a: nat, b: nat :: from <= a < n && Hits(m, a, b))
      && (r.Some? ==> exists a: nat, b: nat ::
            (from <= a < n && Hits(m, a, b) && r.value == a * 3 + b
             && forall a': nat, b': nat :: from <= a' < a ==> !Hits(m, a', b')))
    decreases n - from
  {
    if from < n {
      FirstFromFirst(m, from + 1, n);
      PressesFit(m, from);
      var b := PressesB(m, from);
      forall a': nat, b': nat | a' == from && Hits(m, a', b')
        ensures Hits(m, from, b)
      {
        WinPressesB(m, a', b');
      }
    }
  }

  /**
   * `solve_optimized` needs no move along y: with both buttons moving by
   * `(1, 0)` and the prize at `(2, 0)`, the first try, no A and two B, wins.
   */
  lemma OptimizedFlatMachine()
    ensures var m := Machine(Button(1, 0), Button(1, 0), Prize(2, 0));
      MovesAlongX(m) && !Movable(m) && FirstFrom(m, 0, MaxOptimized(m)) == Some(2)
  {
    var m := Machine(Button(1, 0), Button(1, 0), Prize(2, 0));
    assert MaxOptimized(m) == 2 && PressesB(m, 0) == 2;
  }

  // ---------------------------------------------------------------------------
  // Concrete machines
  // ---------------------------------------------------------------------------

  /** Cramer's rule on the x and y equations of a win: what `a` times the determinant is. */
  lemma Cramer(m: Machine, a: nat, b: nat)
    requires Hits(m, a, b)
    ensures a * (m.a.x * m.b.y - m.a.y * m.b.x) == m.prize.x * m.b.y - m.prize.y * m.b.x
  {
    var ax, ay, bx, bY := m.a.x, m.a.y, m.b.x, m.b.y;
    calc {
      m.prize.x * bY - m.prize.y * bx;
      (ax * a + bx * b) * bY - (ay * a + bY * b) * bx;
      { assert (ax * a + bx * b) * bY == ax * a * bY + bx * b * bY;
        assert (ay * a + bY * b) * bx == ay * a * bx + bY * b * bx; }
      ax * a * bY - ay * a * bx;
      a * (ax * bY - ay * bx);
    }
  }

  /** The machines of the example. */
  function Example(): seq<Machine>
  {
    [ Machine(Button(94, 34), Button(22, 67), Prize(8400, 5400)),
      Machine(Button(26, 66), Button(67, 21), Prize(12748, 12176)),
      Machine(Button(17, 86), Button(84, 37), Prize(7870, 6450)),
      Machine(Button(69, 23), Button(27, 71), Prize(18641, 10279)) ]
  }

  /** A machine whose only win is `(a, b)`. */
  lemma OnlyWin(m: Machine, a: nat, b: nat)
    requires Movable(m) && Hits(m, a, b)
    requires forall a': nat, b': nat :: Hits(m, a', b') ==> a' == a && b' == b
    requires a < MaxA(m) && b < MaxB(m) && a < MaxOptimized(m)
    ensures BestBox(m, MaxA(m), MaxB(m)) == Some(a * 3 + b)
    ensures FirstFrom(m, 0, MaxOptimized(m)) == Some(a * 3 + b)
  {
    SolveCheapest(m);
    FirstFromFirst(m, 0, MaxOptimized(m));
  }

  /** A machine that cannot be won. */
  lemma NoWin(m: Machine)
    requires Movable(m) && forall a: nat, b: nat :: !Hits(m, a, b)
    ensures BestBox(m, MaxA(m), MaxB(m)) == None
    ensures FirstFrom(m, 0, MaxOptimized(m)) == None
  {
    SolveCheapest(m);
    FirstFromFirst(m, 0, MaxOptimized(m));
  }

  lemma ExampleFirst()
    ensures var m := Example()[0]; BestBox(m, MaxA(m), MaxB(m)) == Some(280) && FirstFrom(m, 0, MaxOptimized(m)) == Some(280)
  {
    var m := Example()[0];
    forall a: nat, b: nat | Hits(m, a, b)
      ensures a == 80 && b == 40
    {
      Cramer(m, a, b);
    }
    OnlyWin(m, 80, 40);
  }

  lemma ExampleSecond()
    ensures var m := Example()[1]; BestBox(m, MaxA(m), MaxB(m)) == None && FirstFrom(m, 0, MaxOptimized(m)) == None
  {
    var m := Example()[1];
    forall a: nat, b: nat
      ensures !Hits(m, a, b)
    {
      if Hits(m, a, b) {
        Cramer(m, a, b);
      }
    }
    NoWin(m);
  }

  lemma ExampleThird()
    ensures var m := Example()[2]; BestBox(m, MaxA(m), MaxB(m)) == Some(200) && FirstFrom(m, 0, MaxOptimized(m)) == Some(200)
  {
    var m := Example()[2];
    forall a: nat, b: nat | Hits(m, a, b)
      ensures a == 38 && b == 86
    {
      Cramer(m, a, b);
    }
    OnlyWin(m, 38, 86);
  }

  lemma ExampleFourth()
    ensures var m := Example()[3]; BestBox(m, MaxA(m), MaxB(m)) == None && FirstFrom(m, 0, MaxOptimized(m)) == None
  {
    var m := Example()[3];
    forall a: nat, b: nat
      ensures !Hits(m, a, b)
    {
      if Hits(m, a, b) {
        Cramer(m, a, b);
      }
    }
    NoWin(m);
  }

  // ---------------------------------------------------------------------------
  // The solver: totals over all machines
  // ---------------------------------------------------------------------------

  datatype Solver = Solver(machines: seq<Machine>)

  predicate AllMovable(machines: seq<Machine>)
  {
    forall i :: 0 <= i < |machines| ==> Movable(machines[i])
  }

  predicate AllMoveAlongX(machines: seq<Machine>)
  {
    forall i :: 0 <= i < |machines| ==> MovesAlongX(machines[i])
  }

  /** The sum of the costs found, a machine without a win adding nothing. */
  function SumFound(costs: seq<Option<nat>>): nat
  {
    if |costs| == 0 then 0 else SumFound(costs[..|costs| - 1]) + costs[|costs| - 1].UnwrapOr(0)
  }

  /** What `solve` answers for each machine. */
  function SolveAll(machines: seq<Machine>): (r: seq<Option<nat>>)
    requires AllMovable(machines)
    ensures |r| == |machines| && forall i :: 0 <= i < |r| ==> r[i] == BestBox(machines[i], MaxA(machines[i]), MaxB(machines[i]))
  {
    seq(|machines|, i requires 0 <= i < |machines| => BestBox(machines[i], MaxA(machines[i]), MaxB(machines[i])))
  }

  /** What `solve_optimized` answers for each machine. */
  function SolveAllOptimized(machines: seq<Machine>): (r: seq<Option<nat>>)
    requires AllMoveAlongX(machines)
    ensures |r| == |machines| && forall i :: 0 <= i < |r| ==> r[i] == FirstFrom(machines[i], 0, MaxOptimized(machines[i]))
  {
    seq(|machines|, i requires 0 <= i < |machines| => FirstFrom(machines[i], 0, MaxOptimized(machines[i])))
  }

  /** `solve_part_one`: add up what `solve` finds for each machine. */
  method SolvePartOne(solver: Solver) returns (result: nat)
    requires AllMovable(solver.machines)
    ensures result == SumFound(SolveAll(solver.machines))
  {
    ghost var costs := SolveAll(solver.machines);
    result := 0;
    for k := 0 to |solver.machines|
      invariant result == SumFound(costs[..k])
    {
      var machineResult := Solve(solver.machines[k]);
      assert costs[..k + 1][..k] == costs[..k];
      if machineResult.Some? {
        result := result + machineResult.value;
      }
    }
    assert costs[..|solver.machines|] == costs;
  }

  /** `solve_part_two`: add up what `solve_optimized` finds for each machine. */
  method SolvePartTwo(solver: Solver) returns (result: nat)
    requires AllMoveAlongX(solver.machines)
    ensures result == SumFound(SolveAllOptimized(solver.machines))
  {
    ghost var costs := SolveAllOptimized(solver.machines);
    result := 0;
    for k := 0 to |solver.machines|
      invariant result == SumFound(costs[..k])
    {
      var machineResult := SolveOptimized(solver.machines[k]);
      assert costs[..k + 1][..k] == costs[..k];
      if machineResult.Some? {
        result := result + machineResult.value;
      }
    }
    assert costs[..|solver.machines|] == costs;
  }

  /** The sum of the costs found is at least each cost found. */
  lemma {:induction false} SumFoundBounds(costs: seq<Option<nat>>, i: nat)
    requires i < |costs| && costs[i].Some?
    ensures costs[i].value <= SumFound(costs)
  {
    if i < |costs| - 1 {
      SumFoundBounds(costs[..|costs| - 1], i);
    }
  }

  lemma SumFoundFour(costs: seq<Option<nat>>)
    requires |costs| == 4
    ensures SumFound(costs) == costs[0].UnwrapOr(0) + costs[1].UnwrapOr(0) + costs[2].UnwrapOr(0) + costs[3].UnwrapOr(0)
  {
    assert costs[..3][..2] == costs[..2] && costs[..2][..1] == costs[..1] && costs[..1][..0] == [];
    assert SumFound(costs[..1]) == costs[0].UnwrapOr(0);
    assert SumFound(costs[..2]) == SumFound(costs[..1]) + costs[1].UnwrapOr(0);
    assert SumFound(costs[..3]) == SumFound(costs[..2]) + costs[2].UnwrapOr(0);
  }

  /** The costs the solvers find on the four example machines add up to 480. */
  lemma ExampleCosts(costs: seq<Option<nat>>)
    requires |costs| == 4 && costs[0] == Some(280) && costs[1].None? && costs[2] == Some(200) && costs[3].None?
    ensures SumFound(costs) == 480
  {
    SumFoundFour(costs);
  }

  /** `solve_part_one` totals 480 tokens on the four example machines. */
  lemma ExampleTotalOne()
    ensures AllMovable(Example())
    ensures SumFound(SolveAll(Example())) == 480
  {
    var costs := SolveAll(Example());
    ExampleFirst();
    ExampleSecond();
    ExampleThird();
    ExampleFourth();
    ExampleCosts(costs);
  }

  /** `solve_part_two` totals 480 tokens on the four example machines. */
  lemma ExampleTotalTwo()
    ensures AllMoveAlongX(Example())
    ensures SumFound(SolveAllOptimized(Example())) == 480
  {
    var costs := SolveAllOptimized(Example());
    ExampleFirst();
    ExampleSecond();
    ExampleThird();
    ExampleFourth();
    ExampleCosts(costs);
  }

  /** How far the prizes move in part two. */
  const PRIZE_OFFSET: nat := 10_000_000_000_000

  /** A machine with its prize moved by `PRIZE_OFFSET` along both axes. */
  function Moved(m: Machine): (r: Machine)
    ensures r.a == m.a && r.b == m.b
    ensures r.prize.x - m.prize.x == PRIZE_OFFSET && r.prize.y - m.prize.y == PRIZE_OFFSET
  {
    m.(prize := Prize(m.prize.x + PRIZE_OFFSET, m.prize.y + PRIZE_OFFSET))
  }

  /**
   * The loop of `new_part_two` over the parsed machines: move every prize
   * by `PRIZE_OFFSET` and change nothing else.
   */
  method NewPartTwo(solver: Solver) returns (moved: Solver)
    ensures |moved.machines| == |solver.machines|
    ensures forall i :: 0 <= i < |solver.machines| ==> moved.machines[i] == Moved(solver.machines[i])
  {
    var machines := solver.machines;
    for i := 0 to |machines|
      invariant |machines| == |solver.machines|
      invariant forall j :: 0 <= j < i ==> machines[j] == Moved(solver.machines[j])
      invariant forall j :: i <= j < |machines| ==> machines[j] == solver.machines[j]
    {
      var machine := machines[i];
      machine := machine.(prize := machine.prize.(x := machine.prize.x + PRIZE_OFFSET));
      machine := machine.(prize := machine.prize.(y := machine.prize.y + PRIZE_OFFSET));
      machines := machines[i := machine];
    }
    moved := Solver(machines);
  }

  /** Moving the prizes keeps the machines solvable by both solvers. */
  lemma MovedMovable(machines: seq<Machine>)
    requires AllMovable(machines)
    ensures forall i :: 0 <= i < |machines| ==> Movable(Moved(machines[i]))
  {
  }

  /** Moving the prizes keeps the machines solvable by `solve_optimized`. */
  lemma MovedMovesAlongX(machines: seq<Machine>)
    requires AllMoveAlongX(machines)
    ensures forall i :: 0 <= i < |machines| ==> MovesAlongX(Moved(machines[i]))
  {
  }
}
