/**
 * Day 7: each line of the input holds a target and a list of operands. An
 * equation is solved by putting an operator between every two operands so
 * that, evaluated strictly from left to right, the operands give the
 * target. The search tries operator lists depth first and records the
 * first one that works.
 */
module Day07 {
  import opened Wrappers
  import opened Text

  datatype Operator = Plus | Multiply | Concat

  /** `Concat`: the decimal digits of `a` followed by those of `b`, read back as a number. */
  function ConcatDigits(a: nat, b: nat): nat
  {
    ParseNatConcat(NatToString(a), NatToString(b));
    ParseNat(NatToString(a) + NatToString(b))
  }

  /** Writing `b`'s digits after `a`'s shifts `a` left by as many places as `b` has digits. */
  lemma ConcatShifts(a: nat, b: nat)
    ensures ConcatDigits(a, b) == a * Pow10(NumDigits(b)) + b
  {
    ParseNatConcat(NatToString(a), NatToString(b));
    ParseNatToString(a);
    ParseNatToString(b);
    NatToStringLength(b);
  }

  /** One operator applied to the value so far and the next operand. */
  function Apply(op: Operator, acc: nat, x: nat): nat
  {
    match op
    case Plus => acc + x
    case Multiply => acc * x
    case Concat => ConcatDigits(acc, x)
  }

  /** The operands combined from left to right, operator `i` between operands `i` and `i + 1`. */
  function Evaluate(operands: seq<nat>, ops: seq<Operator>): nat
    requires |operands| >= 1 && |ops| == |operands| - 1
    decreases |operands|
  {
    if |operands| == 1 then operands[0]
    else Apply(ops[|ops| - 1], Evaluate(operands[..|operands| - 1], ops[..|ops| - 1]), operands[|operands| - 1])
  }

  /** The same evaluation from the front: apply the first operator, then go on with the rest. */
  function EvaluateFrom(acc: nat, rest: seq<nat>, ops: seq<Operator>): nat
    requires |ops| == |rest|
    decreases |rest|
  {
    if rest == [] then acc else EvaluateFrom(Apply(ops[0], acc, rest[0]), rest[1..], ops[1..])
  }

  /** Evaluation starts from `operands[0]` and folds every later operand in, with no precedence. */
  lemma EvaluateFromFront(operands: seq<nat>, ops: seq<Operator>)
    requires |operands| >= 1 && |ops| == |operands| - 1
    ensures Evaluate(operands, ops) == EvaluateFrom(operands[0], operands[1..], ops)
  {
    EvaluateFromSplit(operands, ops, |operands|);
    assert operands[..|operands|] == operands && ops[..|ops|] == ops;
  }

  lemma {:induction false} EvaluateFromSplit(operands: seq<nat>, ops: seq<Operator>, i: nat)
    requires 1 <= i <= |operands| && |ops| == |operands| - 1
    ensures EvaluateFrom(Evaluate(operands[..i], ops[..i - 1]), operands[i..], ops[i - 1..])
      == EvaluateFrom(operands[0], operands[1..], ops)
    decreases i
  {
    if i > 1 {
      EvaluateFromSplit(operands, ops, i - 1);
      var prefix, opsPrefix := operands[..i], ops[..i - 1];
      assert prefix[..i - 1] == operands[..i - 1];
      assert opsPrefix[..i - 2] == ops[..i - 2];
      assert operands[i - 1..][1..] == operands[i..];
      assert ops[i - 2..][1..] == ops[i - 1..];
    }
  }

  /** There is no precedence: `2 + 3 * 4` is 20. */
  lemma EvaluateExample()
    ensures Evaluate([2, 3, 4], [Plus, Multiply]) == 20
  {
    assert [2, 3, 4][..2] == [2, 3] && [2, 3][..1] == [2];
    assert [Plus, Multiply][..1] == [Plus];
  }

  /** `Concat` of 12 and 3 is 123, and of 1 and 2 is 12. */
  lemma ConcatExample()
    ensures ConcatDigits(12, 3) == 123 && ConcatDigits(1, 2) == 12
  {
    ConcatShifts(12, 3);
    ConcatShifts(1, 2);
  }

  // ---------------------------------------------------------------------------
  // What the search finds
  // ---------------------------------------------------------------------------

  /** Every operator of `ops` is one of `valid`. */
  predicate Over(ops: seq<Operator>, valid: seq<Operator>)
  {
    forall i :: 0 <= i < |ops| ==> ops[i] in valid
  }

  /** `ops` has one operator for each gap of `operands` and evaluates to `computed`. */
  predicate Solves(operands: seq<nat>, computed: nat, ops: seq<Operator>)
    requires |operands| >= 1
  {
    |ops| == |operands| - 1 && Evaluate(operands, ops) == computed
  }

  /** Some list of operators from `valid` solves the equation. */
  ghost predicate Solvable(operands: seq<nat>, computed: nat, valid: seq<Operator>)
    requires |operands| >= 1
  {
    exists ops :: Over(ops, valid) && Solves(operands, computed, ops)
  }

  /**
   * The depth-first search of `try_operators`: the first operator list,
   * extending `tryOps` and trying `valid` in order at each position, that
   * solves the equation.
   */
  function Search(operands: seq<nat>, computed: nat, tryOps: seq<Operator>, valid: seq<Operator>): Option<seq<Operator>>
    requires |operands| >= 1 && |tryOps| <= |operands| - 1
    decreases |operands| - 1 - |tryOps|, |valid| + 1
  {
    if |tryOps| == |operands| - 1 then
      if Evaluate(operands, tryOps) == computed then Some(tryOps) else None
    else SearchAmong(operands, computed, tryOps, valid, 0)
  }

  /** The search below `tryOps`, trying `valid[i..]` for the next operator. */
  function SearchAmong(operands: seq<nat>, computed: nat, tryOps: seq<Operator>, valid: seq<Operator>, i: nat): Option<seq<Operator>>
    requires |operands| >= 1 && |tryOps| < |operands| - 1 && i <= |valid|
    decreases |operands| - 1 - |tryOps|, |valid| - i
  {
    if i == |valid| then None
    else
      var r := Search(operands, computed, tryOps + [valid[i]], valid);
      if r.Some? then r else SearchAmong(operands, computed, tryOps, valid, i + 1)
  }

  /** What the search finds extends `tryOps` with operators from `valid`, and solves the equation. */
  lemma {:induction false} SearchSound(operands: seq<nat>, computed: nat, tryOps: seq<Operator>, valid: seq<Operator>)
    requires |operands| >= 1 && |tryOps| <= |operands| - 1
    ensures var r := Search(operands, computed, tryOps, valid);
      r.Some? ==> Solves(operands, computed, r.value) && r.value[..|tryOps|] == tryOps && Over(r.value[|tryOps|..], valid)
    decreases |operands| - 1 - |tryOps|, |valid| + 1
  {
    if |tryOps| < |operands| - 1 {
      SearchAmongSound(operands, computed, tryOps, valid, 0);
    } else {
      assert tryOps[..|tryOps|] == tryOps;
    }
  }

  lemma {:induction false} SearchAmongSound(operands: seq<nat>, computed: nat, tryOps: seq<Operator>, valid: seq<Operator>, i: nat)
    requires |operands| >= 1 && |tryOps| < |operands| - 1 && i <= |valid|
    ensures var r := SearchAmong(operands, computed, tryOps, valid, i);
      r.Some? ==> Solves(operands, computed, r.value) && r.value[..|tryOps|] == tryOps && Over(r.value[|tryOps|..], valid)
    decreases |operands| - 1 - |tryOps|, |valid| - i
  {
    if i < |valid| {
      var next := tryOps + [valid[i]];
      var r := Search(operands, computed, next, valid);
      if r.Some? {
        SearchSound(operands, computed, next, valid);
        var ops := r.value;
        assert ops[..|tryOps|] == ops[..|next|][..|tryOps|];
        assert ops[|tryOps|..] == [valid[i]] + ops[|next|..];
      } else {
        SearchAmongSound(operands, computed, tryOps, valid, i + 1);
      }
    }
  }

  /** If some extension of `tryOps` by operators from `valid` solves the equation, the search finds one. */
  lemma {:induction false} SearchComplete(operands: seq<nat>, computed: nat, tryOps: seq<Operator>, valid: seq<Operator>, ext: seq<Operator>)
    requires |operands| >= 1 && |tryOps| <= |operands| - 1
    requires Over(ext, valid) && Solves(operands, computed, tryOps + ext)
    ensures Search(operands, computed, tryOps, valid).Some?
    decreases |operands| - 1 - |tryOps|, |valid| + 1
  {
    if |tryOps| < |operands| - 1 {
      assert ext[0] in valid;
      var i :| 0 <= i < |valid| && valid[i] == ext[0];
      SearchAmongComplete(operands, computed, tryOps, valid, ext, 0, i);
    } else {
      assert tryOps + ext == tryOps;
    }
  }

  lemma {:induction false} SearchAmongComplete(operands: seq<nat>, computed: nat, tryOps: seq<Operator>, valid: seq<Operator>, ext: seq<Operator>, i: nat, j: nat)
    requires |operands| >= 1 && |tryOps| < |operands| - 1 && i <= j < |valid|
    requires Over(ext, valid) && Solves(operands, computed, tryOps + ext) && ext[0] == valid[j]
    ensures SearchAmong(operands, computed, tryOps, valid, i).Some?
    decreases |operands| - 1 - |tryOps|, |valid| - i
  {
    var next := tryOps + [valid[i]];
    if Search(operands, computed, next, valid).None? {
      if i == j {
        assert tryOps + ext == next + ext[1..];
        SearchComplete(operands, computed, next, valid, ext[1..]);
      } else {
        SearchAmongComplete(operands, computed, tryOps, valid, ext, i + 1, j);
      }
    }
  }

  /** The search from no operators succeeds exactly when the equation can be solved with `valid`. */
  lemma SearchCorrect(operands: seq<nat>, computed: nat, valid: seq<Operator>)
    requires |operands| >= 1
    ensures Search(operands, computed, [], valid).Some? <==> Solvable(operands, computed, valid)
    ensures Search(operands, computed, [], valid).Some? ==> Solves(operands, computed, Search(operands, computed, [], valid).value)
  {
    SearchSound(operands, computed, [], valid);
    var r := Search(operands, computed, [], valid);
    if r.Some? {
      assert r.value[0..] == r.value;
      assert Over(r.value, valid) && Solves(operands, computed, r.value);
    }
    if Solvable(operands, computed, valid) {
      var ops :| Over(ops, valid) && Solves(operands, computed, ops);
      assert [] + ops == ops;
      SearchComplete(operands, computed, [], valid, ops);
    }
  }

  /** More operators to choose from never lose a solution: whatever `*` and `+` solve, `*`, `+` and `||` solve too. */
  lemma {:induction false} MoreOperatorsSolveMore(operands: seq<nat>, computed: nat, fewer: seq<Operator>, more: seq<Operator>)
    requires |operands| >= 1
    requires forall op :: op in fewer ==> op in more
    ensures Search(operands, computed, [], fewer).Some? ==> Search(operands, computed, [], more).Some?
  {
    SearchCorrect(operands, computed, fewer);
    SearchCorrect(operands, computed, more);
    if Search(operands, computed, [], fewer).Some? {
      var ops :| Over(ops, fewer) && Solves(operands, computed, ops);
      assert Over(ops, more);
    }
  }

  /** The operators of part one and of part two. */
  const MultAdd: seq<Operator> := [Multiply, Plus]
  const MultAddConcat: seq<Operator> := [Multiply, Plus, Concat]

  lemma PartTwoSolvesMore(operands: seq<nat>, computed: nat)
    requires |operands| >= 1
    ensures Search(operands, computed, [], MultAdd).Some? ==> Search(operands, computed, [], MultAddConcat).Some?
  {
    MoreOperatorsSolveMore(operands, computed, MultAdd, MultAddConcat);
  }

  // ---------------------------------------------------------------------------
  // The equations of the tests
  // ---------------------------------------------------------------------------

  /** `2: 1 1` is solved by `+` alone. */
  lemma ExampleTwo()
    ensures Search([1, 1], 2, [], MultAdd) == Some([Plus])
    ensures Search([1, 1], 2, [], MultAddConcat) == Some([Plus])
  {
    assert Evaluate([1, 1], [Multiply]) == 1 by { assert [1, 1][..1] == [1]; }
    assert Evaluate([1, 1], [Plus]) == 2 by { assert [1, 1][..1] == [1]; }
    assert [] + [Multiply] == [Multiply] && [] + [Plus] == [Plus];
  }

  /** `8: 4 2` is solved by `*`, the first operator tried. */
  lemma ExampleEight()
    ensures Search([4, 2], 8, [], MultAdd) == Some([Multiply])
    ensures Search([4, 2], 8, [], MultAddConcat) == Some([Multiply])
  {
    assert Evaluate([4, 2], [Multiply]) == 8 by { assert [4, 2][..1] == [4]; }
    assert [] + [Multiply] == [Multiply];
  }

  /** The value of `2 op1 4 op2 4`. */
  lemma TwelveValues()
    ensures Evaluate([2, 4, 4], [Multiply, Multiply]) == 32
    ensures Evaluate([2, 4, 4], [Multiply, Plus]) == 12
  {
    assert [2, 4, 4][..2] == [2, 4] && [2, 4][..1] == [2];
    assert [Multiply, Multiply][..1] == [Multiply] && [Multiply, Plus][..1] == [Multiply];
  }

  /** `12: 2 4 4` is solved first by `[*, +]`: `[*, *]` gives 32. */
  lemma ExampleTwelve()
    ensures Search([2, 4, 4], 12, [], MultAdd) == Some([Multiply, Plus])
    ensures Search([2, 4, 4], 12, [], MultAddConcat) == Some([Multiply, Plus])
  {
    TwelveFirst(MultAdd);
    TwelveFirst(MultAddConcat);
  }

  lemma TwelveFirst(valid: seq<Operator>)
    requires |valid| >= 2 && valid[0] == Multiply && valid[1] == Plus
    ensures Search([2, 4, 4], 12, [], valid) == Some([Multiply, Plus])
  {
    var operands := [2, 4, 4];
    TwelveValues();
    assert [Multiply] + [valid[0]] == [Multiply, Multiply];
    assert [Multiply] + [valid[1]] == [Multiply, Plus];
    assert [] + [valid[0]] == [Multiply];
    assert Search(operands, 12, [Multiply, Multiply], valid) == None;
    assert Search(operands, 12, [Multiply, Plus], valid) == Some([Multiply, Plus]);
    assert SearchAmong(operands, 12, [Multiply], valid, 1) == Some([Multiply, Plus]);
    assert SearchAmong(operands, 12, [Multiply], valid, 0) == Some([Multiply, Plus]);
    assert Search(operands, 12, [Multiply], valid) == Some([Multiply, Plus]);
    assert SearchAmong(operands, 12, [], valid, 0) == Some([Multiply, Plus]);
  }

  /** The value of `1 op1 2 op2 3`. */
  function OneTwoThree(ops: seq<Operator>): nat
    requires |ops| == 2
  {
    Evaluate([1, 2, 3], ops)
  }

  lemma OneTwoThreeValues(a: Operator, b: Operator)
    ensures OneTwoThree([a, b]) == Apply(b, Apply(a, 1, 2), 3)
  {
    assert [1, 2, 3][..2] == [1, 2] && [1, 2][..1] == [1];
    assert [a, b][..1] == [a];
  }

  /** `1 op 2`, then `op 3`, with `*` and `+` never reaches 123. */
  lemma OneTwoThreeNoMultAdd(a: Operator, b: Operator)
    requires a != Concat && b != Concat
    ensures OneTwoThree([a, b]) != 123
  {
    OneTwoThreeValues(a, b);
  }

  /** `op 3` after a fixed first operator: none of `*`, `+` reaches 123. */
  lemma OneTwoThreeFailsAfter(a: Operator)
    requires a != Concat
    ensures Search([1, 2, 3], 123, [a], MultAdd) == None
  {
    var operands := [1, 2, 3];
    OneTwoThreeNoMultAdd(a, Multiply);
    OneTwoThreeNoMultAdd(a, Plus);
    assert [a] + [MultAdd[0]] == [a, Multiply];
    assert [a] + [MultAdd[1]] == [a, Plus];
    assert Search(operands, 123, [a, Multiply], MultAdd) == None;
    assert Search(operands, 123, [a, Plus], MultAdd) == None;
    assert SearchAmong(operands, 123, [a], MultAdd, 2) == None;
    assert SearchAmong(operands, 123, [a], MultAdd, 1) == None;
    assert SearchAmong(operands, 123, [a], MultAdd, 0) == None;
  }

  /** `123: 1 2 3` has no solution with `*` and `+`. */
  lemma ExampleOneTwoThreeFails()
    ensures Search([1, 2, 3], 123, [], MultAdd) == None
  {
    var operands := [1, 2, 3];
    OneTwoThreeFailsAfter(Multiply);
    OneTwoThreeFailsAfter(Plus);
    assert [] + [MultAdd[0]] == [Multiply] && [] + [MultAdd[1]] == [Plus];
    assert SearchAmong(operands, 123, [], MultAdd, 2) == None;
    assert SearchAmong(operands, 123, [], MultAdd, 1) == None;
    assert SearchAmong(operands, 123, [], MultAdd, 0) == None;
  }

  /** With `||` every choice before `[||, ||]` fails, and `[||, ||]` gives 123. */
  lemma OneTwoThreeWithConcat(a: Operator, b: Operator)
    ensures OneTwoThree([a, b]) == 123 <==> a == Concat && b == Concat
  {
    OneTwoThreeValues(a, b);
    ConcatShifts(1, 2);
    ConcatShifts(12, 3);
    ConcatShifts(3, 3);
    ConcatShifts(2, 3);
    ConcatShifts(6, 3);
  }

  /** After a first operator other than `||`, no second operator reaches 123. */
  lemma ConcatFailsAfter(a: Operator)
    requires a != Concat
    ensures Search([1, 2, 3], 123, [a], MultAddConcat) == None
  {
    var operands, valid := [1, 2, 3], MultAddConcat;
    OneTwoThreeWithConcat(a, Multiply);
    OneTwoThreeWithConcat(a, Plus);
    OneTwoThreeWithConcat(a, Concat);
    assert [a] + [valid[0]] == [a, Multiply];
    assert [a] + [valid[1]] == [a, Plus];
    assert [a] + [valid[2]] == [a, Concat];
    assert Search(operands, 123, [a, Multiply], valid) == None;
    assert Search(operands, 123, [a, Plus], valid) == None;
    assert Search(operands, 123, [a, Concat], valid) == None;
    assert SearchAmong(operands, 123, [a], valid, 3) == None;
    assert SearchAmong(operands, 123, [a], valid, 2) == None;
    assert SearchAmong(operands, 123, [a], valid, 1) == None;
    assert SearchAmong(operands, 123, [a], valid, 0) == None;
  }

  /** After `||`, the search tries `*` and `+` in vain and then finds `[||, ||]`. */
  lemma ConcatFoundAfterConcat()
    ensures Search([1, 2, 3], 123, [Concat], MultAddConcat) == Some([Concat, Concat])
  {
    var operands, valid := [1, 2, 3], MultAddConcat;
    OneTwoThreeWithConcat(Concat, Multiply);
    OneTwoThreeWithConcat(Concat, Plus);
    OneTwoThreeWithConcat(Concat, Concat);
    assert [Concat] + [valid[0]] == [Concat, Multiply];
    assert [Concat] + [valid[1]] == [Concat, Plus];
    assert [Concat] + [valid[2]] == [Concat, Concat];
    assert Search(operands, 123, [Concat, Multiply], valid) == None;
    assert Search(operands, 123, [Concat, Plus], valid) == None;
    assert Search(operands, 123, [Concat, Concat], valid) == Some([Concat, Concat]);
    assert SearchAmong(operands, 123, [Concat], valid, 2) == Some([Concat, Concat]);
    assert SearchAmong(operands, 123, [Concat], valid, 1) == Some([Concat, Concat]);
    assert SearchAmong(operands, 123, [Concat], valid, 0) == Some([Concat, Concat]);
  }

  /** `123: 1 2 3` is solved by `[||, ||]` once `||` may be used. */
  lemma ExampleOneTwoThreeConcat()
    ensures Search([1, 2, 3], 123, [], MultAddConcat) == Some([Concat, Concat])
  {
    var operands, valid := [1, 2, 3], MultAddConcat;
    ConcatFailsAfter(Multiply);
    ConcatFailsAfter(Plus);
    ConcatFoundAfterConcat();
    assert [] + [valid[0]] == [Multiply] && [] + [valid[1]] == [Plus] && [] + [valid[2]] == [Concat];
    assert SearchAmong(operands, 123, [], valid, 2) == Some([Concat, Concat]);
    assert SearchAmong(operands, 123, [], valid, 1) == Some([Concat, Concat]);
    assert SearchAmong(operands, 123, [], valid, 0) == Some([Concat, Concat]);
  }

  // ---------------------------------------------------------------------------
  // Equations
  // ---------------------------------------------------------------------------

  /**
   * `Equation`: a target and its operands, which never change, and the
   * operators of the solution once one is found.
   */
  class Equation {
    const computed: nat
    const operands: seq<nat>
    var operators: seq<Operator>

    constructor(computed: nat, operands: seq<nat>)
      ensures this.computed == computed && this.operands == operands && operators == []
    {
      this.computed := computed;
      this.operands := operands;
      operators := [];
    }

    /**
     * `combine_with_operators`: evaluate with the first `|operands| - 1`
     * operators; on success append the operators tried to `operators`.
     */
    method CombineWithOperators(tryOps: seq<Operator>) returns (found: bool)
      requires |operands| >= 1 && |tryOps| >= |operands| - 1
      modifies this
      ensures found == (Evaluate(operands, tryOps[..|operands| - 1]) == computed)
      ensures operators == if found then old(operators) + tryOps else old(operators)
    {
      var value := Combine(operands, tryOps);
      if value == computed {
        operators := operators + tryOps;
        return true;
      }
      return false;
    }

    /**
     * `try_operators`: the depth-first search below `tryOps`. On success
     * `operators` gains the first operator list that works.
     */
    method TryOperators(tryOps: seq<Operator>, valid: seq<Operator>) returns (found: bool)
      requires |operands| >= 1 && |tryOps| <= |operands| - 1
      modifies this
      decreases |operands| - 1 - |tryOps|
      ensures found == Search(operands, computed, tryOps, valid).Some?
      ensures operators == if found then old(operators) + Search(operands, computed, tryOps, valid).value else old(operators)
    {
      if |tryOps| == |operands| - 1 {
        assert tryOps[..|operands| - 1] == tryOps;
        found := CombineWithOperators(tryOps);
        return;
      }
      for i := 0 to |valid|
        invariant SearchAmong(operands, computed, tryOps, valid, i) == SearchAmong(operands, computed, tryOps, valid, 0)
        invariant operators == old(operators)
      {
        var nextTry := tryOps + [valid[i]];
        found := TryOperators(nextTry, valid);
        if found {
          return;
        }
      }
      return false;
    }

    /** `mult_add_operators`: the search with `*` and `+`. */
    method MultAddOperators() returns (found: bool)
      requires |operands| >= 1
      modifies this
      ensures found == Search(operands, computed, [], MultAdd).Some?
      ensures operators == if found then old(operators) + Search(operands, computed, [], MultAdd).value else old(operators)
    {
      found := TryOperators([], MultAdd);
    }

    /** `mult_add_concat_operators`: the search with `*`, `+` and `||`. */
    method MultAddConcatOperators() returns (found: bool)
      requires |operands| >= 1
      modifies this
      ensures found == Search(operands, computed, [], MultAddConcat).Some?
      ensures operators == if found then old(operators) + Search(operands, computed, [], MultAddConcat).value else old(operators)
    {
      found := TryOperators([], MultAddConcat);
    }
  }

  /** The loop of `combine_with_operators`: the operands folded together from the left. */
  method Combine(operands: seq<nat>, tryOps: seq<Operator>) returns (value: nat)
    requires |operands| >= 1 && |tryOps| >= |operands| - 1
    ensures value == Evaluate(operands, tryOps[..|operands| - 1])
  {
    value := operands[0];
    for index := 1 to |operands|
      invariant value == Evaluate(operands[..index], tryOps[..index - 1])
    {
      ghost var before := value;
      match tryOps[index - 1] {
        case Multiply =>
          MulMonotone(0, value, operands[index]);
          value := value * operands[index];
        case Plus => value := value + operands[index];
        case Concat => value := ConcatText(value, operands[index]);
      }
      EvaluateStep(operands, tryOps, index, before);
    }
    assert operands[..|operands|] == operands;
  }

  /** `Concat` as the source computes it: both numbers formatted, the texts joined and parsed. */
  method ConcatText(a: nat, b: nat) returns (c: nat)
    ensures c == ConcatDigits(a, b)
  {
    var digits := NatToString(a) + NatToString(b);
    ParseNatConcat(NatToString(a), NatToString(b));
    c := ParseNat(digits);
  }

  /** One more operand folded in: the loop step of `combine_with_operators`. */
  lemma EvaluateStep(operands: seq<nat>, ops: seq<Operator>, index: nat, before: nat)
    requires 1 <= index < |operands| && |ops| >= |operands| - 1
    requires before == Evaluate(operands[..index], ops[..index - 1])
    ensures Evaluate(operands[..index + 1], ops[..index]) == Apply(ops[index - 1], before, operands[index])
  {
    assert operands[..index + 1][..index] == operands[..index];
    assert ops[..index][..index - 1] == ops[..index - 1];
  }

  // ---------------------------------------------------------------------------
  // Input and the two parts
  // ---------------------------------------------------------------------------

  /** An equation as read from the input. */
  datatype Problem = Problem(computed: nat, operands: seq<nat>)

  /** The whitespace-separated operands, or `None` when one does not parse. */
  function ParseOperands(words: seq<string>): (r: Option<seq<nat>>)
    ensures r.Some? <==> forall i :: 0 <= i < |words| ==> IsNumeral(words[i])
    ensures r.Some? ==> |r.value| == |words| && forall i :: 0 <= i < |words| ==> r.value[i] == ParseNat(words[i])
  {
    if words == [] then Some([])
    else
      var front := ParseOperands(words[..|words| - 1]);
      var last := words[|words| - 1];
      if front.Some? && IsNumeral(last) then Some(front.value + [ParseNat(last)]) else None
  }

  /**
   * One line of `load_input`: trimmed, cut at the first `:` into the target
   * and the operands. `None` stands for the panic on a line without `:` or
   * with a number that does not parse.
   */
  function ParseLine(line: string): Option<Problem>
  {
    match SplitOnce(Trim(line), ':')
    case None => None
    case Some((target, rest)) =>
      var operands := ParseOperands(SplitWhitespace(rest));
      if IsNumeral(target) && operands.Some? then Some(Problem(ParseNat(target), operands.value)) else None
  }

  /** The decimal numerals of some naturals. */
  function Numerals(ns: seq<nat>): (ws: seq<string>)
    ensures |ws| == |ns| && forall i :: 0 <= i < |ns| ==> ws[i] == NatToString(ns[i])
  {
    seq(|ns|, i requires 0 <= i < |ns| => NatToString(ns[i]))
  }

  /** An equation written the way the input writes it: `190: 10 19`. */
  function FormatLine(p: Problem): string
  {
    NatToString(p.computed) + [':'] + Spaced(Numerals(p.operands))
  }

  /** Reading a line reverses writing it. */
  lemma ParseFormatLine(p: Problem)
    ensures ParseLine(FormatLine(p)) == Some(p)
  {
    var target, words := NatToString(p.computed), Numerals(p.operands);
    TrimFormatLine(p);
    assert ':' !in target by { assert forall j :: 0 <= j < |target| ==> IsDigit(target[j]); }
    SplitOnceAt(target, ':', Spaced(words));
    ParseNumerals(p.operands);
    ParseNatToString(p.computed);
  }

  /** A written equation starts with a digit and ends in a digit or the `:`. */
  lemma TrimFormatLine(p: Problem)
    ensures Trim(FormatLine(p)) == FormatLine(p)
  {
    var target, words := NatToString(p.computed), Numerals(p.operands);
    var spaced := Spaced(words);
    var line := target + [':'] + spaced;
    assert line == FormatLine(p);
    assert line[0] == target[0];
    if words != [] {
      NumeralsAreWords(p.operands);
      SpacedEnd(words);
      assert line[|line| - 1] == spaced[|spaced| - 1];
    } else {
      assert line[|line| - 1] == ':';
    }
    TrimUnchanged(line);
  }

  lemma NumeralsAreWords(ns: seq<nat>)
    ensures forall k :: 0 <= k < |ns| ==> IsWord(Numerals(ns)[k])
  {
    forall k | 0 <= k < |ns| ensures IsWord(Numerals(ns)[k]) {
      assert IsNumeral(NatToString(ns[k]));
    }
  }

  /** The operands written with a space before each are read back. */
  lemma ParseNumerals(ns: seq<nat>)
    ensures ParseOperands(SplitWhitespace(Spaced(Numerals(ns)))) == Some(ns)
  {
    var words := Numerals(ns);
    NumeralsAreWords(ns);
    SplitWhitespaceSpaced(words);
    forall i | 0 <= i < |words| ensures ParseNat(words[i]) == ns[i] {
      ParseNatToString(ns[i]);
    }
    var r := ParseOperands(words);
    assert r.Some? && r.value == ns;
  }

  /** A written equation is one line: digits, a `:`, spaces and digits. */
  lemma FormatLineIsLine(p: Problem)
    ensures '\n' !in FormatLine(p)
    ensures FormatLine(p) != [] && FormatLine(p)[|FormatLine(p)| - 1] != '\r'
  {
    var target, words := NatToString(p.computed), Numerals(p.operands);
    var line := FormatLine(p);
    forall k | 0 <= k < |words| ensures IsNumeral(words[k]) {
    }
    SpacedNumerals(words);
    forall j | 0 <= j < |line| ensures line[j] != '\n' && line[j] != '\r' {
      if j < |target| {
        assert line[j] == target[j];
      } else if j > |target| {
        assert line[j] == Spaced(words)[j - |target| - 1];
      }
    }
  }

  /** Equations written one per line, each line ending in `\n`. */
  function FormatInput(problems: seq<Problem>): string
  {
    if problems == [] then [] else FormatLine(problems[0]) + ['\n'] + FormatInput(problems[1..])
  }

  /** Each written equation is one of the lines read back. */
  lemma {:induction false} LinesFormatInput(problems: seq<Problem>)
    ensures |Lines(FormatInput(problems))| == |problems|
    ensures forall i :: 0 <= i < |problems| ==> Lines(FormatInput(problems))[i] == FormatLine(problems[i])
    decreases |problems|
  {
    if problems != [] {
      FormatLineIsLine(problems[0]);
      LinesCons(FormatLine(problems[0]), FormatInput(problems[1..]));
      LinesFormatInput(problems[1..]);
    }
  }

  /** Reading the input reverses writing it: `load_input` recovers every equation, in order. */
  lemma ParseFormatInput(problems: seq<Problem>)
    ensures ParseInput(FormatInput(problems)) == Some(problems)
  {
    var lines := Lines(FormatInput(problems));
    LinesFormatInput(problems);
    forall i | 0 <= i < |lines| ensures ParseLine(lines[i]) == Some(problems[i]) {
      ParseFormatLine(problems[i]);
    }
    var r := Traverse(ParseLine, lines);
    assert r.Some? && r.value == problems;
  }

  /** The first two lines of the test input are the equations `2: 1 1` and `8: 4 2` written out. */
  lemma FormatLineExample()
    ensures FormatLine(Problem(2, [1, 1])) == "2: 1 1" && FormatLine(Problem(8, [4, 2])) == "8: 4 2"
  {
    assert Numerals([1, 1]) == ["1", "1"];
    assert Numerals([4, 2]) == ["4", "2"];
  }

  /** Those two lines are read back as the two equations, in order. */
  lemma LoadInputExample()
    ensures ParseInput(FormatInput([Problem(2, [1, 1]), Problem(8, [4, 2])])) == Some([Problem(2, [1, 1]), Problem(8, [4, 2])])
  {
    ParseFormatInput([Problem(2, [1, 1]), Problem(8, [4, 2])]);
  }

  function ParseInput(input: string): Option<seq<Problem>>
  {
    Traverse(ParseLine, Lines(input))
  }

  /** `load_input`: one fresh equation, with no operators yet, per line. */
  method LoadInput(input: string) returns (r: Option<seq<Equation>>)
    ensures r.Some? <==> ParseInput(input).Some?
    ensures r.Some? ==> |r.value| == |ParseInput(input).value|
    ensures r.Some? ==> forall i :: 0 <= i < |r.value| ==>
      fresh(r.value[i]) && r.value[i].operators == [] &&
      r.value[i].computed == ParseInput(input).value[i].computed &&
      r.value[i].operands == ParseInput(input).value[i].operands
  {
    r := LoadLines(Lines(input), ParseLine);
  }

  /** The loop of `load_input`, over the lines, with `parse` reading one line. */
  method LoadLines(lines: seq<string>, parse: string -> Option<Problem>) returns (r: Option<seq<Equation>>)
    ensures r.Some? <==> Traverse(parse, lines).Some?
    ensures r.Some? ==> |r.value| == |lines|
    ensures r.Some? ==> forall i :: 0 <= i < |lines| ==>
      fresh(r.value[i]) && r.value[i].operators == [] &&
      parse(lines[i]) == Some(Problem(r.value[i].computed, r.value[i].operands))
  {
    var result: seq<Equation> := [];
    ghost var problems: seq<Problem> := [];
    for i := 0 to |lines|
      invariant |result| == |problems| == i
      invariant forall j :: 0 <= j < i ==> parse(lines[j]) == Some(problems[j])
      invariant forall j :: 0 <= j < i ==> result[j].computed == problems[j].computed && result[j].operands == problems[j].operands
      invariant forall j :: 0 <= j < i ==> fresh(result[j])
      invariant forall j :: 0 <= j < i ==> result[j].operators == []
    {
      var parsed := parse(lines[i]);
      if parsed.None? {
        return None;
      }
      var equation := new Equation(parsed.value.computed, parsed.value.operands);
      result := result + [equation];
      problems := problems + [parsed.value];
    }
    return Some(result);
  }

  /** Each equation has at least one operand, as `try_operators` needs. */
  predicate WellFormed(input: string)
  {
    ParseInput(input).Some? && forall i :: 0 <= i < |ParseInput(input).value| ==> |ParseInput(input).value[i].operands| >= 1
  }

  /** The sum of the targets of the equations that `valid` can solve. */
  function Total(problems: seq<Problem>, valid: seq<Operator>): nat
    requires forall i :: 0 <= i < |problems| ==> |problems[i].operands| >= 1
  {
    if problems == [] then 0
    else
      var p := problems[|problems| - 1];
      Total(problems[..|problems| - 1], valid) + (if Search(p.operands, p.computed, [], valid).Some? then p.computed else 0)
  }

  /** `part_one`/`part_two`: every equation searched in turn, the targets of the solved ones summed. */
  method SumSolved(input: string, valid: seq<Operator>) returns (r: Option<nat>)
    requires WellFormed(input)
    ensures r == Some(Total(ParseInput(input).value, valid))
  {
    var loaded := LoadInput(input);
    var sum := SumEquations(loaded.value, valid, ParseInput(input).value);
    return Some(sum);
  }

  /** The loop of `part_one`/`part_two` over freshly loaded equations. */
  method SumEquations(equations: seq<Equation>, valid: seq<Operator>, ghost problems: seq<Problem>) returns (sum: nat)
    requires |equations| == |problems|
    requires forall i :: 0 <= i < |problems| ==> |problems[i].operands| >= 1
    requires forall i :: 0 <= i < |equations| ==>
      equations[i].computed == problems[i].computed && equations[i].operands == problems[i].operands
    modifies set i | 0 <= i < |equations| :: equations[i]
    ensures sum == Total(problems, valid)
  {
    sum := 0;
    for i := 0 to |equations|
      invariant sum == Total(problems[..i], valid)
    {
      var equation := equations[i];
      var found := equation.TryOperators([], valid);
      TakeTake(problems, i);
      if found {
        sum := sum + equation.computed;
      }
    }
    assert problems[..|problems|] == problems;
  }

  method PartOne(input: string) returns (r: Option<nat>)
    requires WellFormed(input)
    ensures r == Some(Total(ParseInput(input).value, MultAdd))
  {
    r := SumSolved(input, MultAdd);
  }

  method PartTwo(input: string) returns (r: Option<nat>)
    requires WellFormed(input)
    ensures r == Some(Total(ParseInput(input).value, MultAddConcat))
  {
    r := SumSolved(input, MultAddConcat);
  }

  /** Part two's total is at least part one's. */
  lemma {:induction false} PartTwoAtLeastPartOne(problems: seq<Problem>)
    requires forall i :: 0 <= i < |problems| ==> |problems[i].operands| >= 1
    ensures Total(problems, MultAdd) <= Total(problems, MultAddConcat)
    decreases |problems|
  {
    if problems != [] {
      var p := problems[|problems| - 1];
      PartTwoAtLeastPartOne(problems[..|problems| - 1]);
      PartTwoSolvesMore(p.operands, p.computed);
    }
  }
}
