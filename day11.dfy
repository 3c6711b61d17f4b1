/**
 * Day 11: a row of numbered stones changes at every blink. A 0 becomes a 1,
 * a number with an even number of digits splits into its two halves, and
 * any other number is multiplied by 2024. The solution keeps the stones
 * once as a list and once as a table from each number to how many stones
 * carry it; the table is proved to hold, at every round, the same stones as
 * the list up to their order.
 */
module Day11 {
  import opened Wrappers
  import opened Text

  const U64_MAX: nat := 0xFFFF_FFFF_FFFF_FFFF

  /** A number with an even number of decimal digits: the stones that split. */
  predicate Splits(n: nat)
  {
    n != 0 && NumDigits(n) % 2 == 0
  }

  /**
   * What one stone becomes at a blink: a split stone keeps the high and the
   * low half of its digits.
   */
  function Blink(n: nat): (r: seq<nat>)
    ensures |r| == if Splits(n) then 2 else 1
  {
    if n == 0 then [1]
    else if Splits(n) then
      var half := NumDigits(n) / 2;
      [DropDigits(n, half), KeepDigits(n, half)]
    else [n * 2024]
  }

  /**
   * The rule as `transform_stones` writes it, on the decimal text of the
   * stone: split the text in the middle and parse each half.
   */
  function BlinkText(n: nat): seq<nat>
  {
    var s := NatToString(n);
    if n == 0 then [1]
    else if |s| % 2 == 0 then
      var (head, tail) := (s[..|s| / 2], s[|s| / 2..]);
      [ParseNat(head), ParseNat(tail)]
    else [n * 2024]
  }

  /** Splitting the decimal text is splitting the number at a power of ten. */
  lemma BlinkMatchesText(n: nat)
    ensures Blink(n) == BlinkText(n)
  {
    NatToStringLength(n);
    var s := NatToString(n);
    if n != 0 && |s| % 2 == 0 {
      NatToStringSplit(n, |s| - |s| / 2);
      DropKeepDigits(n, |s| / 2);
    }
  }

  /** Each stone of a row replaced by what `rule` makes of it, in order. */
  function FlatMap(rule: nat -> seq<nat>, stones: seq<nat>): seq<nat>
  {
    if stones == [] then []
    else FlatMap(rule, stones[..|stones| - 1]) + rule(stones[|stones| - 1])
  }

  lemma FlatMapSnoc(rule: nat -> seq<nat>, stones: seq<nat>, x: nat)
    ensures FlatMap(rule, stones + [x]) == FlatMap(rule, stones) + rule(x)
  {
    assert (stones + [x])[..|stones|] == stones;
  }

  lemma FlatMapSingle(rule: nat -> seq<nat>, x: nat)
    ensures FlatMap(rule, [x]) == rule(x)
  {
    assert [x][..0] == [];
  }

  /** Mapping two rows side by side is mapping each. */
  lemma {:induction false} FlatMapAppend(rule: nat -> seq<nat>, a: seq<nat>, b: seq<nat>)
    ensures FlatMap(rule, a + b) == FlatMap(rule, a) + FlatMap(rule, b)
    decreases |b|
  {
    if b != [] {
      var b' := b[..|b| - 1];
      assert (a + b)[..|a + b| - 1] == a + b';
      FlatMapAppend(rule, a, b');
    } else {
      assert a + b == a;
    }
  }

  /** `transform_stones`: every stone replaced by what it becomes, in order. */
  function TransformStones(stones: seq<nat>): seq<nat>
  {
    FlatMap(Blink, stones)
  }

  /** The number of stones that split. */
  function SplitCount(stones: seq<nat>): nat
  {
    if stones == [] then 0
    else SplitCount(stones[..|stones| - 1]) + (if Splits(stones[|stones| - 1]) then 1 else 0)
  }

  /** A blink adds one stone for every stone that splits, so the row never shrinks. */
  lemma {:induction false} TransformLength(stones: seq<nat>)
    ensures |TransformStones(stones)| == |stones| + SplitCount(stones)
    ensures |TransformStones(stones)| >= |stones|
    decreases |stones|
  {
    if stones != [] {
      TransformLength(stones[..|stones| - 1]);
    }
  }

  /** The stones after `k` blinks. */
  function Blinks(stones: seq<nat>, k: nat): seq<nat>
    decreases k
  {
    if k == 0 then stones else Blinks(TransformStones(stones), k - 1)
  }

  /** One more blink after `k`. */
  lemma {:induction false} BlinksStep(stones: seq<nat>, k: nat)
    ensures Blinks(stones, k + 1) == TransformStones(Blinks(stones, k))
    decreases k
  {
    if k > 0 {
      BlinksStep(TransformStones(stones), k - 1);
    }
  }

  /** The stones of the first example, one by one. */
  lemma BlinkExample()
    ensures Blink(0) == [1] && Blink(1) == [2024] && Blink(999) == [2021976]
    ensures Blink(10) == [1, 0] && Blink(99) == [9, 9]
  {
    assert NumDigits(10) == 2;
    assert NumDigits(99) == 2;
    assert NumDigits(999) == 3;
  }

  /** `[0, 1, 10, 99, 999]` becomes `[1, 2024, 1, 0, 9, 9, 2021976]`. */
  lemma TransformExample()
    ensures TransformStones([0, 1, 10, 99, 999]) == [1, 2024, 1, 0, 9, 9, 2021976]
  {
    BlinkExample();
    FlatMapFive(Blink, 0, 1, 10, 99, 999);
  }

  lemma FlatMapFive(rule: nat -> seq<nat>, a: nat, b: nat, c: nat, d: nat, e: nat)
    ensures FlatMap(rule, [a, b, c, d, e]) == rule(a) + rule(b) + rule(c) + rule(d) + rule(e)
  {
    FlatMapSingle(rule, a);
    FlatMapSnoc(rule, [a], b);
    assert [a] + [b] == [a, b];
    FlatMapSnoc(rule, [a, b], c);
    assert [a, b] + [c] == [a, b, c];
    FlatMapSnoc(rule, [a, b, c], d);
    assert [a, b, c] + [d] == [a, b, c, d];
    FlatMapSnoc(rule, [a, b, c, d], e);
    assert [a, b, c, d] + [e] == [a, b, c, d, e];
  }

  // ---------------------------------------------------------------------------
  // Counting descendants
  // ---------------------------------------------------------------------------

  /**
   * How many stones one stone becomes after `k` applications of `rule`. It
   * depends only on the tree of what each number becomes, which is why a
   * count per number can stand in for the row.
   */
  function Descendants(rule: nat -> seq<nat>, n: nat, k: nat): nat
    decreases k, 0
  {
    if k == 0 then 1 else RowDescendants(rule, rule(n), k - 1)
  }

  /** The descendants of a whole row. */
  function RowDescendants(rule: nat -> seq<nat>, stones: seq<nat>, k: nat): nat
    decreases k, |stones| + 1
  {
    if stones == [] then 0
    else RowDescendants(rule, stones[..|stones| - 1], k) + Descendants(rule, stones[|stones| - 1], k)
  }

  lemma {:induction false} RowDescendantsAppend(rule: nat -> seq<nat>, a: seq<nat>, b: seq<nat>, k: nat)
    ensures RowDescendants(rule, a + b, k) == RowDescendants(rule, a, k) + RowDescendants(rule, b, k)
    decreases |b|
  {
    if b != [] {
      var b' := b[..|b| - 1];
      assert (a + b)[..|a + b| - 1] == a + b';
      RowDescendantsAppend(rule, a, b', k);
    } else {
      assert a + b == a;
    }
  }

  /** A row's descendants after `k + 1` steps are its image's descendants after `k`. */
  lemma {:induction false} RowDescendantsStep(rule: nat -> seq<nat>, stones: seq<nat>, k: nat)
    ensures RowDescendants(rule, FlatMap(rule, stones), k) == RowDescendants(rule, stones, k + 1)
    decreases |stones|
  {
    if stones != [] {
      var front := stones[..|stones| - 1];
      RowDescendantsStep(rule, front, k);
      RowDescendantsAppend(rule, FlatMap(rule, front), rule(stones[|stones| - 1]), k);
    }
  }

  /** With no step left every stone counts once. */
  lemma {:induction false} RowDescendantsZero(rule: nat -> seq<nat>, stones: seq<nat>)
    ensures RowDescendants(rule, stones, 0) == |stones|
    decreases |stones|
  {
    if stones != [] {
      RowDescendantsZero(rule, stones[..|stones| - 1]);
    }
  }

  /** After `k` blinks a row holds as many stones as its descendants count. */
  lemma {:induction false} BlinksLength(stones: seq<nat>, k: nat)
    ensures |Blinks(stones, k)| == RowDescendants(Blink, stones, k)
    decreases k
  {
    if k == 0 {
      RowDescendantsZero(Blink, stones);
    } else {
      BlinksLength(TransformStones(stones), k - 1);
      RowDescendantsStep(Blink, stones, k - 1);
    }
  }

  lemma RowDescendantsOne(rule: nat -> seq<nat>, a: nat, k: nat)
    ensures RowDescendants(rule, [a], k) == Descendants(rule, a, k)
  {
    assert [a][..0] == [];
  }

  lemma RowDescendantsTwo(rule: nat -> seq<nat>, a: nat, b: nat, k: nat)
    ensures RowDescendants(rule, [a, b], k) == Descendants(rule, a, k) + Descendants(rule, b, k)
  {
    assert [a, b][..1] == [a];
    RowDescendantsOne(rule, a, k);
  }

  /** What the numbers of the `125 17` example become, part 1. */
  lemma SecondExampleBlinks1()
    ensures Blink(0) == [1] && Blink(1) == [2024] && Blink(2) == [4048]
    ensures Blink(4) == [8096] && Blink(7) == [14168] && Blink(17) == [1, 7]
    ensures Blink(20) == [2, 0]
  {
    assert NumDigits(17) == 2;
    assert NumDigits(20) == 2;
  }

  /** What the numbers of the `125 17` example become, part 2. */
  lemma SecondExampleBlinks2()
    ensures Blink(24) == [2, 4] && Blink(28) == [2, 8] && Blink(32) == [3, 2]
    ensures Blink(60) == [6, 0] && Blink(67) == [6, 7] && Blink(72) == [7, 2]
    ensures Blink(125) == [253000]
  {
    assert NumDigits(24) == 2;
    assert NumDigits(28) == 2;
    assert NumDigits(32) == 2;
    assert NumDigits(60) == 2;
    assert NumDigits(67) == 2;
    assert NumDigits(72) == 2;
    assert NumDigits(12) == 2;
    assert NumDigits(125) == 3;
  }

  /** What the numbers of the `125 17` example become, part 3. */
  lemma SecondExampleBlinks3()
    ensures Blink(253) == [512072] && Blink(512) == [1036288] && Blink(2024) == [20, 24]
    ensures Blink(2867) == [28, 67] && Blink(4048) == [40, 48] && Blink(6032) == [60, 32]
    ensures Blink(8096) == [80, 96]
  {
    assert NumDigits(25) == 2;
    assert NumDigits(253) == 3;
    assert NumDigits(51) == 2;
    assert NumDigits(512) == 3;
    assert NumDigits(20) == 2;
    assert NumDigits(202) == 3;
    assert NumDigits(2024) == 4;
    assert NumDigits(28) == 2;
    assert NumDigits(286) == 3;
    assert NumDigits(2867) == 4;
    assert NumDigits(40) == 2;
    assert NumDigits(404) == 3;
    assert NumDigits(4048) == 4;
    assert NumDigits(60) == 2;
    assert NumDigits(603) == 3;
    assert NumDigits(6032) == 4;
    assert NumDigits(80) == 2;
    assert NumDigits(809) == 3;
    assert NumDigits(8096) == 4;
  }

  /** What the numbers of the `125 17` example become, part 4. */
  lemma SecondExampleBlinks4()
    ensures Blink(14168) == [28676032] && Blink(253000) == [253, 0] && Blink(512072) == [512, 72]
    ensures Blink(1036288) == [2097446912] && Blink(28676032) == [2867, 6032]
  {
    assert NumDigits(14) == 2;
    assert NumDigits(141) == 3;
    assert NumDigits(1416) == 4;
    assert NumDigits(14168) == 5;
    assert NumDigits(25) == 2;
    assert NumDigits(253) == 3;
    assert NumDigits(2530) == 4;
    assert NumDigits(25300) == 5;
    assert NumDigits(253000) == 6;
    assert NumDigits(51) == 2;
    assert NumDigits(512) == 3;
    assert NumDigits(5120) == 4;
    assert NumDigits(51207) == 5;
    assert NumDigits(512072) == 6;
    assert NumDigits(10) == 2;
    assert NumDigits(103) == 3;
    assert NumDigits(1036) == 4;
    assert NumDigits(10362) == 5;
    assert NumDigits(103628) == 6;
    assert NumDigits(1036288) == 7;
    assert NumDigits(28) == 2;
    assert NumDigits(286) == 3;
    assert NumDigits(2867) == 4;
    assert NumDigits(28676) == 5;
    assert NumDigits(286760) == 6;
    assert NumDigits(2867603) == 7;
    assert NumDigits(28676032) == 8;
  }

  /** In the `125 17` example, a stone 253 with 4 blinks to go becomes 3 stones. */
  lemma SecondExampleFrom253()
    ensures Descendants(Blink, 253, 4) == 3
  {
    SecondExampleBlinks1();
    SecondExampleBlinks2();
    SecondExampleBlinks3();
    SecondExampleBlinks4();
    RowDescendantsOne(Blink, 2097446912, 0);
    assert Descendants(Blink, 1036288, 1) == 1;
    RowDescendantsOne(Blink, 1036288, 1);
    assert Descendants(Blink, 512, 2) == 1;
    RowDescendantsOne(Blink, 14168, 0);
    assert Descendants(Blink, 7, 1) == 1;
    RowDescendantsOne(Blink, 4048, 0);
    assert Descendants(Blink, 2, 1) == 1;
    RowDescendantsTwo(Blink, 7, 2, 1);
    assert Descendants(Blink, 72, 2) == 2;
    RowDescendantsTwo(Blink, 512, 72, 2);
    assert Descendants(Blink, 512072, 3) == 3;
    RowDescendantsOne(Blink, 512072, 3);
    assert Descendants(Blink, 253, 4) == 3;
  }

  /** In the `125 17` example, a stone 0 with 4 blinks to go becomes 4 stones. */
  lemma SecondExampleFrom0()
    ensures Descendants(Blink, 0, 4) == 4
  {
    SecondExampleBlinks1();
    SecondExampleBlinks2();
    SecondExampleBlinks3();
    SecondExampleBlinks4();
    RowDescendantsTwo(Blink, 2, 0, 0);
    assert Descendants(Blink, 20, 1) == 2;
    RowDescendantsTwo(Blink, 2, 4, 0);
    assert Descendants(Blink, 24, 1) == 2;
    RowDescendantsTwo(Blink, 20, 24, 1);
    assert Descendants(Blink, 2024, 2) == 4;
    RowDescendantsOne(Blink, 2024, 2);
    assert Descendants(Blink, 1, 3) == 4;
    RowDescendantsOne(Blink, 1, 3);
    assert Descendants(Blink, 0, 4) == 4;
  }

  /** In the `125 17` example, a stone 1 with 5 blinks to go becomes 7 stones. */
  lemma SecondExampleFrom1()
    ensures Descendants(Blink, 1, 5) == 7
  {
    SecondExampleBlinks1();
    SecondExampleBlinks2();
    SecondExampleBlinks3();
    SecondExampleBlinks4();
    RowDescendantsTwo(Blink, 40, 48, 0);
    assert Descendants(Blink, 4048, 1) == 2;
    RowDescendantsOne(Blink, 4048, 1);
    assert Descendants(Blink, 2, 2) == 2;
    RowDescendantsOne(Blink, 2024, 0);
    assert Descendants(Blink, 1, 1) == 1;
    RowDescendantsOne(Blink, 1, 1);
    assert Descendants(Blink, 0, 2) == 1;
    RowDescendantsTwo(Blink, 2, 0, 2);
    assert Descendants(Blink, 20, 3) == 3;
    RowDescendantsTwo(Blink, 80, 96, 0);
    assert Descendants(Blink, 8096, 1) == 2;
    RowDescendantsOne(Blink, 8096, 1);
    assert Descendants(Blink, 4, 2) == 2;
    RowDescendantsTwo(Blink, 2, 4, 2);
    assert Descendants(Blink, 24, 3) == 4;
    RowDescendantsTwo(Blink, 20, 24, 3);
    assert Descendants(Blink, 2024, 4) == 7;
    RowDescendantsOne(Blink, 2024, 4);
    assert Descendants(Blink, 1, 5) == 7;
  }

  /** In the `125 17` example, a stone 7 with 5 blinks to go becomes 8 stones. */
  lemma SecondExampleFrom7()
    ensures Descendants(Blink, 7, 5) == 8
  {
    SecondExampleBlinks1();
    SecondExampleBlinks2();
    SecondExampleBlinks3();
    SecondExampleBlinks4();
    RowDescendantsTwo(Blink, 2, 8, 0);
    assert Descendants(Blink, 28, 1) == 2;
    RowDescendantsTwo(Blink, 6, 7, 0);
    assert Descendants(Blink, 67, 1) == 2;
    RowDescendantsTwo(Blink, 28, 67, 1);
    assert Descendants(Blink, 2867, 2) == 4;
    RowDescendantsTwo(Blink, 6, 0, 0);
    assert Descendants(Blink, 60, 1) == 2;
    RowDescendantsTwo(Blink, 3, 2, 0);
    assert Descendants(Blink, 32, 1) == 2;
    RowDescendantsTwo(Blink, 60, 32, 1);
    assert Descendants(Blink, 6032, 2) == 4;
    RowDescendantsTwo(Blink, 2867, 6032, 2);
    assert Descendants(Blink, 28676032, 3) == 8;
    RowDescendantsOne(Blink, 28676032, 3);
    assert Descendants(Blink, 14168, 4) == 8;
    RowDescendantsOne(Blink, 14168, 4);
    assert Descendants(Blink, 7, 5) == 8;
  }

  /** The stone 125 becomes 7 stones in six blinks, the stone 17 becomes 15. */
  lemma SecondExampleRoots()
    ensures Descendants(Blink, 125, 6) == 7 && Descendants(Blink, 17, 6) == 15
  {
    SecondExampleBlinks2();
    SecondExampleBlinks1();
    SecondExampleBlinks4();
    SecondExampleFrom253();
    SecondExampleFrom0();
    SecondExampleFrom1();
    SecondExampleFrom7();
    RowDescendantsTwo(Blink, 253, 0, 4);
    assert Descendants(Blink, 253000, 5) == 7;
    RowDescendantsOne(Blink, 253000, 5);
    RowDescendantsTwo(Blink, 1, 7, 5);
  }

  /** `"125 17"` holds 22 stones after six blinks. */
  lemma SecondExample()
    ensures |Blinks([125, 17], 6)| == 22
  {
    BlinksLength([125, 17], 6);
    RowDescendantsTwo(Blink, 125, 17, 6);
    SecondExampleRoots();
  }
  /** The stones are the whitespace-separated numerals of the text. */
  predicate WellFormed(input: string)
  {
    forall i :: 0 <= i < |SplitWhitespace(input)| ==> IsNumeral(SplitWhitespace(input)[i])
  }

  function Numbers(words: seq<string>): (r: seq<nat>)
    requires forall i :: 0 <= i < |words| ==> IsNumeral(words[i])
    ensures |r| == |words| && forall i :: 0 <= i < |words| ==> r[i] == ParseNat(words[i])
  {
    if words == [] then [] else Numbers(words[..|words| - 1]) + [ParseNat(words[|words| - 1])]
  }

  /** `load_input`: the numbers of the text. */
  function LoadInput(input: string): seq<nat>
    requires WellFormed(input)
  {
    Numbers(SplitWhitespace(input))
  }

  // ---------------------------------------------------------------------------
  // The count table
  // ---------------------------------------------------------------------------

  /** How many stones carry `x`: absent keys count 0. */
  function Count(m: map<nat, nat>, x: nat): nat
  {
    if x in m then m[x] else 0
  }

  /** How many stones of a row carry `x`. */
  function Occ(x: nat, stones: seq<nat>): nat
  {
    multiset(stones)[x]
  }

  /** `incr_stones`: `value` more stones carry `key`, the key inserted when absent. */
  function Incr(stones: map<nat, nat>, key: nat, value: nat): (r: map<nat, nat>)
    ensures r.Keys == stones.Keys + {key}
    ensures forall x :: Count(r, x) == Count(stones, x) + (if x == key then value else 0)
  {
    if key in stones then stones[key := stones[key] + value] else stones[key := value]
  }

  /** `decr_stones`: `value` fewer stones carry `key`. It panics when the key is absent or has fewer stones. */
  function Decr(stones: map<nat, nat>, key: nat, value: nat): (r: map<nat, nat>)
    requires key in stones && stones[key] >= value
    ensures r.Keys == stones.Keys
    ensures forall x :: Count(r, x) == Count(stones, x) - (if x == key then value else 0)
  {
    stones[key := stones[key] - value]
  }

  /** The table counts the stones of the row: the row, up to order. */
  ghost predicate Represents(table: map<nat, nat>, stones: seq<nat>)
  {
    forall x :: Count(table, x) == Occ(x, stones)
  }

  /** The stones of `stones` whose number is in `keys`, in order. */
  function Within(stones: seq<nat>, keys: set<nat>): (r: seq<nat>)
    ensures |r| <= |stones|
  {
    if stones == [] then []
    else
      var x := stones[|stones| - 1];
      Within(stones[..|stones| - 1], keys) + (if x in keys then [x] else [])
  }

  /** The stones of `stones` whose number is not in `keys`, in order. */
  function Outside(stones: seq<nat>, keys: set<nat>): seq<nat>
  {
    if stones == [] then []
    else
      var x := stones[|stones| - 1];
      Outside(stones[..|stones| - 1], keys) + (if x in keys then [] else [x])
  }

  /** Adding the key `k` to the processed keys adds its stones to `Within`. */
  lemma {:induction false} WithinAddLength(stones: seq<nat>, keys: set<nat>, k: nat)
    requires k !in keys
    ensures |Within(stones, keys + {k})| == |Within(stones, keys)| + Occ(k, stones)
    decreases |stones|
  {
    if stones != [] {
      var front, y := stones[..|stones| - 1], stones[|stones| - 1];
      assert stones == front + [y];
      WithinAddLength(front, keys, k);
    }
  }

  /** Adding the key `k` to the processed keys adds the images of its stones to the mapped `Within`. */
  lemma {:induction false} WithinAdd(rule: nat -> seq<nat>, stones: seq<nat>, keys: set<nat>, k: nat, x: nat)
    requires k !in keys
    ensures Occ(x, FlatMap(rule, Within(stones, keys + {k})))
      == Occ(x, FlatMap(rule, Within(stones, keys))) + Occ(k, stones) * Occ(x, rule(k))
    decreases |stones|, 1
  {
    if stones != [] {
      if stones[|stones| - 1] == k {
        WithinAddHit(rule, stones, keys, k, x);
      } else {
        WithinAddMiss(rule, stones, keys, k, x);
      }
    }
  }

  /** `WithinAdd` when the last stone carries the new key: the left side gains its image. */
  lemma {:induction false} WithinAddHit(rule: nat -> seq<nat>, stones: seq<nat>, keys: set<nat>, k: nat, x: nat)
    requires k !in keys && stones != [] && stones[|stones| - 1] == k
    ensures Occ(x, FlatMap(rule, Within(stones, keys + {k})))
      == Occ(x, FlatMap(rule, Within(stones, keys))) + Occ(k, stones) * Occ(x, rule(k))
    decreases |stones|, 0
  {
    var front := stones[..|stones| - 1];
    assert stones == front + [k];
    WithinAdd(rule, front, keys, k, x);
    FlatMapAppend(rule, Within(front, keys + {k}), [k]);
    FlatMapSingle(rule, k);
    var before, image := Occ(k, front), Occ(x, rule(k));
    assert Occ(x, FlatMap(rule, Within(stones, keys + {k})))
      == Occ(x, FlatMap(rule, Within(front, keys + {k}))) + image;
    assert Within(stones, keys) == Within(front, keys);
    assert Occ(k, stones) == before + 1;
    MulSucc(before, image);
  }

  lemma MulSucc(a: nat, b: nat)
    ensures (a + 1) * b == a * b + b
  {
  }

  /** `WithinAdd` when the last stone carries another number: both sides gain the same. */
  lemma {:induction false} WithinAddMiss(rule: nat -> seq<nat>, stones: seq<nat>, keys: set<nat>, k: nat, x: nat)
    requires k !in keys && stones != [] && stones[|stones| - 1] != k
    ensures Occ(x, FlatMap(rule, Within(stones, keys + {k})))
      == Occ(x, FlatMap(rule, Within(stones, keys))) + Occ(k, stones) * Occ(x, rule(k))
    decreases |stones|, 0
  {
    var front, y := stones[..|stones| - 1], stones[|stones| - 1];
    assert stones == front + [y];
    WithinAdd(rule, front, keys, k, x);
    var kept: seq<nat> := if y in keys then [y] else [];
    assert Within(stones, keys + {k}) == Within(front, keys + {k}) + kept;
    assert Within(stones, keys) == Within(front, keys) + kept;
    FlatMapAppend(rule, Within(front, keys + {k}), kept);
    FlatMapAppend(rule, Within(front, keys), kept);
    assert Occ(k, stones) == Occ(k, front);
  }

  /** Adding the key `k` to the processed keys takes its stones out of `Outside`. */
  lemma {:induction false} OutsideAdd(stones: seq<nat>, keys: set<nat>, k: nat, x: nat)
    requires k !in keys
    ensures Occ(x, Outside(stones, keys)) == Occ(x, Outside(stones, keys + {k})) + (if x == k then Occ(k, stones) else 0)
    decreases |stones|
  {
    if stones != [] {
      var front, y := stones[..|stones| - 1], stones[|stones| - 1];
      assert stones == front + [y];
      OutsideAdd(front, keys, k, x);
    }
  }

  /** With no key processed every stone is outside. */
  lemma {:induction false} WithinNone(stones: seq<nat>)
    ensures Within(stones, {}) == [] && Outside(stones, {}) == stones
    decreases |stones|
  {
    if stones != [] {
      WithinNone(stones[..|stones| - 1]);
      assert stones == stones[..|stones| - 1] + [stones[|stones| - 1]];
    }
  }

  /** With every number processed every stone is within. */
  lemma {:induction false} WithinAll(stones: seq<nat>, keys: set<nat>)
    requires forall i :: 0 <= i < |stones| ==> stones[i] in keys
    ensures Within(stones, keys) == stones && Outside(stones, keys) == []
    decreases |stones|
  {
    if stones != [] {
      WithinAll(stones[..|stones| - 1], keys);
      assert stones == stones[..|stones| - 1] + [stones[|stones| - 1]];
    }
  }

  /** Every number of a represented row is a key of the table. */
  lemma KeysCoverStones(table: map<nat, nat>, stones: seq<nat>)
    requires Represents(table, stones)
    ensures forall i :: 0 <= i < |stones| ==> stones[i] in table
  {
    forall i | 0 <= i < |stones| ensures stones[i] in table {
      assert Occ(stones[i], stones) > 0;
    }
  }

  /**
   * `StoneStore`: how many stones carry each number. The ghost `Stones` is
   * the row the table stands for.
   */
  class StoneStore {
    var stones: map<nat, nat>
    ghost var Stones: seq<nat>

    ghost predicate Valid()
      reads this
    {
      Represents(stones, Stones)
    }

    /** `StoneStore::new`: the numbers of the text, counted. */
    constructor(input: string)
      requires WellFormed(input)
      ensures Valid() && Stones == LoadInput(input)
    {
      var initial := LoadInput(input);
      var table: map<nat, nat> := map[];
      for i := 0 to |initial|
        invariant Represents(table, initial[..i])
      {
        var x := initial[i];
        TakeTake(initial, i);
        CountOneMore(table, initial[..i], x);
        if x in table {
          table := table[x := table[x] + 1];
        } else {
          table := table[x := 1];
        }
      }
      assert initial[..|initial|] == initial;
      stones := table;
      Stones := initial;
    }

    /**
     * `transform`: every number's stones, counted before the blink, move to
     * what the number becomes. The keys are visited in no particular order,
     * as a hash map yields them; the result does not depend on it.
     */
    method Transform()
      requires Valid()
      modifies this
      ensures Valid() && Stones == TransformStones(old(Stones))
    {
      var current := stones;
      ghost var row := Stones;
      var next := current;
      var remaining := current.Keys;
      ghost var done: set<nat> := {};
      TracksStart(current, row);
      while remaining != {}
        invariant remaining !! done && remaining + done == current.Keys
        invariant current.Keys <= next.Keys
        invariant Tracks(next, row, done)
        decreases remaining
      {
        var key :| key in remaining;
        var value := current[key];
        assert value == Occ(key, row);
        MoveStep(next, row, done, key);
        next := Move(next, key, value);
        remaining := remaining - {key};
        done := done + {key};
      }
      TracksEnd(current, next, row);
      stones := next;
      Stones := TransformStones(row);
    }

    /** `len`: the number of stones, summed over the table in any order. */
    method Len() returns (n: nat)
      requires Valid()
      ensures n == |Stones|
    {
      n := 0;
      var current := stones;
      ghost var row := Stones;
      var remaining := current.Keys;
      ghost var done: set<nat> := {};
      WithinNone(row);
      while remaining != {}
        invariant remaining !! done && remaining + done == current.Keys
        invariant n == |Within(row, done)|
        decreases remaining
      {
        var key :| key in remaining;
        WithinAddLength(row, done, key);
        n := n + current[key];
        remaining := remaining - {key};
        done := done + {key};
      }
      KeysCoverStones(current, row);
      WithinAll(row, done);
    }
  }

  /** Counting one more stone. */
  lemma CountOneMore(table: map<nat, nat>, stones: seq<nat>, x: nat)
    requires Represents(table, stones)
    ensures Represents(Incr(table, x, 1), stones + [x])
  {
    var next := Incr(table, x, 1);
    forall y ensures Count(next, y) == Occ(y, stones + [x]) {
      assert Occ(y, stones + [x]) == Occ(y, stones) + (if y == x then 1 else 0);
    }
  }

  /**
   * Midway through `transform`: the clone counts the successors of the stones
   * whose keys are done, and the stones whose keys are not done yet.
   */
  ghost predicate Tracks(next: map<nat, nat>, row: seq<nat>, done: set<nat>)
  {
    forall x :: Count(next, x) == Occ(x, TransformStones(Within(row, done))) + Occ(x, Outside(row, done))
  }

  /** Before any key is done, the clone tracks the row itself. */
  lemma TracksStart(table: map<nat, nat>, row: seq<nat>)
    requires Represents(table, row)
    ensures Tracks(table, row, {})
  {
    WithinNone(row);
  }

  /** With every key done, the clone counts the blinked row. */
  lemma TracksEnd(table: map<nat, nat>, next: map<nat, nat>, row: seq<nat>)
    requires Represents(table, row) && Tracks(next, row, table.Keys)
    ensures Represents(next, TransformStones(row))
  {
    KeysCoverStones(table, row);
    WithinAll(row, table.Keys);
  }

  /** One more key done keeps `Tracks`, and the key still has all of its stones to give away. */
  lemma MoveStep(next: map<nat, nat>, row: seq<nat>, done: set<nat>, key: nat)
    requires Tracks(next, row, done) && key !in done && key in next
    ensures next[key] >= Occ(key, row)
    ensures Tracks(Move(next, key, Occ(key, row)), row, done + {key})
  {
    OutsideAdd(row, done, key, key);
    forall x ensures Count(Move(next, key, Occ(key, row)), x)
      == Occ(x, TransformStones(Within(row, done + {key}))) + Occ(x, Outside(row, done + {key}))
    {
      OutsideAdd(row, done, key, x);
      WithinAdd(Blink, row, done, key, x);
    }
  }

  /** One key's turn in `transform`: its successors gain `value` stones, then the key loses them. */
  function Move(next: map<nat, nat>, key: nat, value: nat): (r: map<nat, nat>)
    requires key in next && next[key] >= value
    ensures next.Keys <= r.Keys
    ensures forall x :: Count(r, x) == Count(next, x) + value * Occ(x, Blink(key)) - (if x == key then value else 0)
  {
    var children := Blink(key);
    var grown := if |children| == 1 then Incr(next, children[0], value)
                 else Incr(Incr(next, children[0], value), children[1], value);
    assert forall x :: Count(grown, x) == Count(next, x) + value * Occ(x, children) by {
      forall x ensures Count(grown, x) == Count(next, x) + value * Occ(x, children) {
        if |children| == 2 {
          assert children == [children[0]] + [children[1]];
          assert Occ(x, children) == (if x == children[0] then 1 else 0) + (if x == children[1] then 1 else 0);
        }
      }
    }
    Decr(grown, key, value)
  }

  /** `part_one`: the row blinked 25 times, and the table blinked 25 times agrees on the count. */
  method PartOne(input: string) returns (r: Option<nat>)
    requires WellFormed(input)
    ensures r == Some(|Blinks(LoadInput(input), 25)|)
  {
    var stones := LoadInput(input);
    for i := 0 to 25
      invariant stones == Blinks(LoadInput(input), i)
    {
      BlinksStep(LoadInput(input), i);
      stones := TransformStones(stones);
    }
    var stoneStore := new StoneStore(input);
    for i := 0 to 25
      invariant stoneStore.Valid() && stoneStore.Stones == Blinks(LoadInput(input), i)
    {
      BlinksStep(LoadInput(input), i);
      stoneStore.Transform();
    }
    var storeLen := stoneStore.Len();
    assert |stones| == storeLen;
    r := Some(|stones|);
  }

  /** `part_two`: the table blinked 75 times; it counts what the row would hold. */
  method PartTwo(input: string) returns (r: Option<nat>)
    requires WellFormed(input)
    ensures r == Some(|Blinks(LoadInput(input), 75)|)
  {
    var stoneStore := new StoneStore(input);
    for i := 0 to 75
      invariant stoneStore.Valid() && stoneStore.Stones == Blinks(LoadInput(input), i)
    {
      BlinksStep(LoadInput(input), i);
      stoneStore.Transform();
    }
    var n := stoneStore.Len();
    r := Some(n);
  }

}
