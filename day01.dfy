/**
 * Day 1: two columns of numbers. Part one pairs the columns after sorting
 * each and sums the distances; part two weighs every number of the first
 * column by how often it occurs in the second.
 */
module Day01 {
  import opened Wrappers
  import opened Text

  /** The lines of the input, as `split_terminator("\n")` cuts them. */
  function InputLines(input: string): seq<string>
  {
    SplitTerminator(input, '\n')
  }

  /** A line has at least two whitespace-separated words and the first two are numerals. */
  predicate WellFormedLine(line: string)
  {
    var words := SplitWhitespace(line);
    |words| >= 2 && IsNumeral(words[0]) && IsNumeral(words[1])
  }

  predicate WellFormed(input: string)
  {
    forall i :: 0 <= i < |InputLines(input)| ==> WellFormedLine(InputLines(input)[i])
  }

  /** The value of the k-th word (k is 0 or 1) of a line. */
  function Field(line: string, k: nat): nat
    requires k < 2 && WellFormedLine(line)
  {
    var words := SplitWhitespace(line);
    ParseNat(if k == 0 then words[0] else words[1])
  }

  /** The k-th number (k is 0 or 1) of every line. */
  function Numbers(lines: seq<string>, k: nat): (col: seq<nat>)
    requires k < 2
    requires forall i :: 0 <= i < |lines| ==> WellFormedLine(lines[i])
    ensures |col| == |lines|
    ensures forall i :: 0 <= i < |lines| ==> col[i] == Field(lines[i], k)
  {
    if lines == [] then []
    else Numbers(lines[..|lines| - 1], k) + [Field(lines[|lines| - 1], k)]
  }

  /** `load_data`: the first and the second number of each line, as two columns. */
  method LoadData(input: string) returns (column1: seq<nat>, column2: seq<nat>)
    requires WellFormed(input)
    ensures column1 == Numbers(InputLines(input), 0)
    ensures column2 == Numbers(InputLines(input), 1)
  {
    var lines := InputLines(input);
    column1, column2 := [], [];
    for i := 0 to |lines|
      invariant column1 == Numbers(lines[..i], 0)
      invariant column2 == Numbers(lines[..i], 1)
    {
      var values := SplitWhitespace(lines[i]);
      column1 := column1 + [ParseNat(values[0])];
      column2 := column2 + [ParseNat(values[1])];
      assert lines[..i + 1][..i] == lines[..i];
    }
    assert lines[..|lines|] == lines;
  }

  predicate Sorted(s: seq<nat>)
  {
    forall i, j :: 0 <= i < j < |s| ==> s[i] <= s[j]
  }

  /** Puts x before the first element that is not smaller. */
  function Insert(x: nat, s: seq<nat>): (r: seq<nat>)
    ensures |r| == |s| + 1
    ensures multiset(r) == multiset(s) + multiset{x}
  {
    if s == [] then [x]
    else if x <= s[0] then [x] + s
    else
      assert s == [s[0]] + s[1..];
      [s[0]] + Insert(x, s[1..])
  }

  /** Inserting into an ascending sequence keeps it ascending. */
  lemma {:induction false} InsertSorted(x: nat, s: seq<nat>)
    requires Sorted(s)
    ensures Sorted(Insert(x, s))
    decreases |s|
  {
    if s != [] && x > s[0] {
      var t := Insert(x, s[1..]);
      InsertSorted(x, s[1..]);
      forall j | 0 <= j < |t| ensures s[0] <= t[j] {
        assert t[j] in multiset(t);
        assert t[j] == x || t[j] in multiset(s[1..]);
        if t[j] != x {
          assert t[j] in s[1..];
        }
      }
    }
  }

  /** `Vec::sort`: the ascending rearrangement of the values. */
  function Sort(s: seq<nat>): (r: seq<nat>)
    ensures |r| == |s|
    ensures Sorted(r) && multiset(r) == multiset(s)
  {
    if s == [] then []
    else
      assert s == [s[0]] + s[1..];
      InsertSorted(s[0], Sort(s[1..]));
      Insert(s[0], Sort(s[1..]))
  }

  /** The first element of an ascending sequence is its least value. */
  lemma SortedHead(s: seq<nat>, x: nat)
    requires Sorted(s) && x in s
    ensures s[0] <= x
  {
  }

  /** Two ascending sequences holding the same values are equal. */
  lemma {:induction false} SortedUnique(a: seq<nat>, b: seq<nat>)
    requires Sorted(a) && Sorted(b) && multiset(a) == multiset(b)
    ensures a == b
    decreases |a|
  {
    if a == [] {
      assert |b| == |multiset(b)| == 0;
    } else {
      assert |b| == |multiset(b)| == |a|;
      assert a[0] in multiset(b) && b[0] in multiset(a);
      SortedHead(b, a[0]);
      SortedHead(a, b[0]);
      assert a == [a[0]] + a[1..];
      assert b == [b[0]] + b[1..];
      assert multiset(a[1..]) == multiset(a) - multiset{a[0]};
      assert multiset(b[1..]) == multiset(b) - multiset{b[0]};
      SortedTail(a);
      SortedTail(b);
      assert a[0] == b[0];
      assert multiset(a[1..]) == multiset(b[1..]);
      SortedUnique(a[1..], b[1..]);
    }
  }

  lemma SortedTail(s: seq<nat>)
    requires Sorted(s) && |s| > 0
    ensures Sorted(s[1..])
  {
  }

  /** Sorting depends only on the values, not on their order. */
  lemma SortReorder(a: seq<nat>, b: seq<nat>)
    requires multiset(a) == multiset(b)
    ensures Sort(a) == Sort(b)
  {
    SortedUnique(Sort(a), Sort(b));
  }

  function AbsDiff(a: nat, b: nat): nat
  {
    if a < b then b - a else a - b
  }

  /** The sum of the distances between the values at equal indices. */
  function SumAbsDiff(a: seq<nat>, b: seq<nat>): nat
    requires |a| == |b|
  {
    if a == [] then 0
    else SumAbsDiff(a[..|a| - 1], b[..|b| - 1]) + AbsDiff(a[|a| - 1], b[|b| - 1])
  }

  /** The total distance between the columns: smallest with smallest, and so on up. */
  function TotalDistance(column1: seq<nat>, column2: seq<nat>): nat
    requires |column1| == |column2|
  {
    SumAbsDiff(Sort(column1), Sort(column2))
  }

  /** The total distance does not change when either column is reordered. */
  lemma TotalDistanceReorder(a: seq<nat>, a': seq<nat>, b: seq<nat>, b': seq<nat>)
    requires |a| == |b| && multiset(a) == multiset(a') && multiset(b) == multiset(b')
    ensures |a'| == |b'|
    ensures TotalDistance(a, b) == TotalDistance(a', b')
  {
    assert |a'| == |multiset(a')| == |multiset(a)| == |a|;
    assert |b'| == |multiset(b')| == |multiset(b)| == |b|;
    SortReorder(a, a');
    SortReorder(b, b');
  }

  /** Every difference counts: the total is zero exactly when the sorted columns coincide. */
  lemma {:induction false} SumAbsDiffZero(a: seq<nat>, b: seq<nat>)
    requires |a| == |b|
    ensures SumAbsDiff(a, b) == 0 <==> a == b
    decreases |a|
  {
    if a != [] {
      SumAbsDiffZero(a[..|a| - 1], b[..|b| - 1]);
      if a[..|a| - 1] == b[..|b| - 1] && a[|a| - 1] == b[|b| - 1] {
        assert a == a[..|a| - 1] + [a[|a| - 1]];
        assert b == b[..|b| - 1] + [b[|b| - 1]];
      }
    }
  }

  /** `part_one`: sort both columns, then accumulate the distances pairwise. */
  method PartOne(input: string) returns (r: Option<nat>)
    requires WellFormed(input)
    ensures r == Some(TotalDistance(Numbers(InputLines(input), 0), Numbers(InputLines(input), 1)))
  {
    var column1, column2 := LoadData(input);
    var total := SumDistances(Sort(column1), Sort(column2));
    r := Some(total);
  }

  /** The accumulation loop of `part_one`, over columns that are already sorted. */
  method SumDistances(column1: seq<nat>, column2: seq<nat>) returns (total: nat)
    requires |column1| == |column2|
    ensures total == SumAbsDiff(column1, column2)
  {
    total := 0;
    for i := 0 to |column1|
      invariant total == SumAbsDiff(column1[..i], column2[..i])
    {
      assert column1[..i + 1][..i] == column1[..i];
      assert column2[..i + 1][..i] == column2[..i];
      total := total + AbsDiff(column1[i], column2[i]);
    }
    assert column1[..|column1|] == column1;
    assert column2[..|column2|] == column2;
  }

  /** The frequency table of part two: every value of the column with its number of occurrences. */
  method FrequencyTable(column: seq<nat>) returns (table: map<nat, nat>)
    ensures forall k :: k in table <==> k in column
    ensures forall k :: k in table ==> table[k] == multiset(column)[k]
  {
    table := map[];
    for i := 0 to |column|
      invariant forall k :: k in table <==> k in column[..i]
      invariant forall k :: k in table ==> table[k] == multiset(column[..i])[k]
    {
      var key := column[i];
      assert column[..i + 1] == column[..i] + [key];
      if key in table {
        table := table[key := table[key] + 1];
      } else {
        table := table[key := 1];
      }
    }
    assert column[..|column|] == column;
  }

  /** Each value of the first column times its number of occurrences in the second. */
  function Similarity(column1: seq<nat>, column2: seq<nat>): nat
  {
    if column1 == [] then 0
    else
      var key := column1[|column1| - 1];
      Similarity(column1[..|column1| - 1], column2) + key * multiset(column2)[key]
  }

  /** The sum over the first column with the weights looked up in a table (absent keys weigh 0). */
  function WeightedSum(column1: seq<nat>, table: map<nat, nat>): nat
  {
    if column1 == [] then 0
    else
      var key := column1[|column1| - 1];
      WeightedSum(column1[..|column1| - 1], table) + key * (if key in table then table[key] else 0)
  }

  /** Looking weights up in the frequency table of the second column gives the similarity. */
  lemma {:induction false} WeightedSumIsSimilarity(column1: seq<nat>, column2: seq<nat>, table: map<nat, nat>)
    requires forall k :: k in table <==> k in column2
    requires forall k :: k in table ==> table[k] == multiset(column2)[k]
    ensures WeightedSum(column1, table) == Similarity(column1, column2)
    decreases |column1|
  {
    if column1 != [] {
      WeightedSumIsSimilarity(column1[..|column1| - 1], column2, table);
    }
  }

  /** Similarity only depends on the second column's values, and a foreign first column scores 0. */
  lemma {:induction false} SimilarityDisjoint(column1: seq<nat>, column2: seq<nat>)
    requires forall i :: 0 <= i < |column1| ==> column1[i] !in column2
    ensures Similarity(column1, column2) == 0
    decreases |column1|
  {
    if column1 != [] {
      SimilarityDisjoint(column1[..|column1| - 1], column2);
    }
  }

  /** `part_two`: count the second column into a table, then weigh the first column by it. */
  method PartTwo(input: string) returns (r: Option<nat>)
    requires WellFormed(input)
    ensures r == Some(Similarity(Numbers(InputLines(input), 0), Numbers(InputLines(input), 1)))
  {
    var column1, column2 := LoadData(input);
    var table := FrequencyTable(column2);
    WeightedSumIsSimilarity(column1, column2, table);
    r := Some(WeightedSum(column1, table));
  }
}
