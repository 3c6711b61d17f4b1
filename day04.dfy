/**
 * Day 4: a word search. Part one counts every `XMAS` read in any of the
 * eight directions: it counts the rows, then the columns (a transpose),
 * then both families of diagonals (the grid is sheared so that they line up
 * as columns, padded with `.`, then transposed), each line forwards and
 * backwards. Part two counts the 3-by-3 windows whose two diagonals both
 * read `MAS` in either direction.
 */
module Day04 {
  import opened Wrappers
  import opened Text

  type Grid = seq<seq<char>>

  const Xmas: string := "XMAS"

  // ---------------------------------------------------------------------------
  // Counting XMAS in a line
  // ---------------------------------------------------------------------------

  /** `XMAS` starts at index `k` of `s`. */
  predicate MatchAt(s: string, k: nat)
  {
    k + 4 <= |s| && s[k..k + 4] == Xmas
  }

  /** `str::find("XMAS")` on `s` from index `k` on. */
  function FindFrom(s: string, k: nat): (r: Option<nat>)
    ensures r.Some? ==> k <= r.value && MatchAt(s, r.value) && forall j :: k <= j < r.value ==> !MatchAt(s, j)
    ensures r.None? ==> forall j :: k <= j ==> !MatchAt(s, j)
    decreases |s| - k
  {
    if k + 4 > |s| then None
    else if s[k..k + 4] == Xmas then Some(k)
    else FindFrom(s, k + 1)
  }

  /** `str::find("XMAS")`: the first index where `XMAS` starts. */
  function Find(s: string): Option<nat>
  {
    FindFrom(s, 0)
  }

  /** The number of indices of `s` where `XMAS` starts. */
  function Occurrences(s: string): nat
    decreases |s|
  {
    if |s| < 4 then 0
    else (if s[..4] == Xmas then 1 else 0) + Occurrences(s[1..])
  }

  /** A line with no `XMAS` in it has no occurrences. */
  lemma {:induction false} OccurrencesNone(s: string)
    requires forall j: nat :: !MatchAt(s, j)
    ensures Occurrences(s) == 0
    decreases |s|
  {
    if |s| >= 4 {
      assert !MatchAt(s, 0);
      forall j: nat ensures !MatchAt(s[1..], j) {
        assert !MatchAt(s, j + 1);
        if j + 4 <= |s| - 1 {
          assert s[1..][j..j + 4] == s[j + 1..j + 5];
        }
      }
      OccurrencesNone(s[1..]);
    }
  }

  /** Dropping a prefix in which no `XMAS` starts keeps the count. */
  lemma {:induction false} OccurrencesDrop(s: string, p: nat)
    requires p <= |s| && forall j: nat :: j < p ==> !MatchAt(s, j)
    ensures Occurrences(s) == Occurrences(s[p..])
    decreases p
  {
    if p > 0 {
      assert !MatchAt(s, 0);
      forall j: nat | j < p - 1
        ensures !MatchAt(s[1..], j)
      {
        assert !MatchAt(s, j + 1);
        if j + 4 <= |s| - 1 {
          assert s[1..][j..j + 4] == s[j + 1..j + 5];
        }
      }
      OccurrencesDrop(s[1..], p - 1);
      assert s[1..][p - 1..] == s[p..];
    }
  }

  /**
   * After an `XMAS` at the front, the next three indices hold `M`, `A`, `S`,
   * so no other occurrence starts before index 4: the occurrences never
   * overlap.
   */
  lemma OccurrencesAfterMatch(s: string)
    requires MatchAt(s, 0)
    ensures Occurrences(s) == 1 + Occurrences(s[4..])
  {
    assert s[..4] == Xmas;
    assert s[1] == 'M' && s[2] == 'A' && s[3] == 'S';
    forall j: nat | j < 3
      ensures !MatchAt(s[1..], j)
    {
      assert s[1..][j] == s[j + 1];
    }
    OccurrencesDrop(s[1..], 3);
    assert s[1..][3..] == s[4..];
  }

  /** With no match in the line, the scan stops with nothing more to count. */
  lemma OccurrencesStop(s: string)
    requires Find(s).None?
    ensures Occurrences(s) == 0
  {
    OccurrencesNone(s);
  }

  /** The scan's step: count the first match and resume after it. */
  lemma OccurrencesStep(s: string, p: nat)
    requires Find(s) == Some(p)
    ensures p + 4 <= |s| && Occurrences(s) == 1 + Occurrences(s[p + 4..])
  {
    OccurrencesDrop(s, p);
    assert s[p..][..4] == s[p..p + 4];
    OccurrencesAfterMatch(s[p..]);
    assert s[p..][4..] == s[p + 4..];
  }

  /**
   * `count_xmas_in_str`: find `XMAS` in the rest of the line, count it and
   * resume after it. The count is the number of indices where `XMAS`
   * starts, and the sanity check that the count stays below the length of
   * the line never fails.
   */
  method CountXmasInStr(line: string) returns (count: nat)
    ensures count == Occurrences(line)
  {
    var start := 0;
    count := 0;
    while true
      invariant start <= |line| && 4 * count <= start
      invariant count + Occurrences(line[start..]) == Occurrences(line)
      decreases |line| - start
    {
      var tail := line[start..];
      var pos := Find(tail);
      if pos.None? {
        OccurrencesStop(tail);
        break;
      }
      OccurrencesStep(tail, pos.value);
      count := count + 1;
      assert line[start..][pos.value + 4..] == line[start + pos.value + 4..];
      start := start + pos.value + 4;
      assert count < |line|;
    }
  }

  /** The characters of `s` in reverse order. */
  function Reverse(s: string): (r: string)
    ensures |r| == |s| && forall i :: 0 <= i < |s| ==> r[i] == s[|s| - 1 - i]
  {
    seq(|s|, i requires 0 <= i < |s| => s[|s| - 1 - i])
  }

  lemma ReverseTwice(s: string)
    ensures Reverse(Reverse(s)) == s
  {
  }

  /** The occurrences read forwards plus those read backwards. */
  function BothWays(s: string): nat
  {
    Occurrences(s) + Occurrences(Reverse(s))
  }

  /** A line and its reverse hold the same words in both directions. */
  lemma BothWaysReverse(s: string)
    ensures BothWays(Reverse(s)) == BothWays(s)
  {
    ReverseTwice(s);
  }

  /** `count_xmas_in_vec`: the count in the line and in its reverse. */
  method CountXmasInVec(input: string) returns (n: nat)
    ensures n == BothWays(input)
  {
    var forward := CountXmasInStr(input);
    var backward := CountXmasInStr(Reverse(input));
    n := forward + backward;
  }

  /** The counts the tests expect of single lines. */
  lemma CountExamples()
    ensures Occurrences("XMAS") == 1
    ensures Occurrences("XMASXMAS") == 2
    ensures Occurrences("XMASXMASXMA") == 2
  {
    OccurrencesAfterMatch("XMAS");
    assert "XMASXMAS"[4..] == "XMAS";
    OccurrencesAfterMatch("XMASXMAS");
    assert "XMASXMASXMA"[4..] == "XMASXMA";
    OccurrencesAfterMatch("XMASXMASXMA");
    assert "XMASXMA"[4..] == "XMA";
    OccurrencesAfterMatch("XMASXMA");
  }

  /** A line that does not start with `X` counts as its tail does. */
  lemma OccurrencesSkip(s: string)
    requires |s| > 0 && s[0] != 'X'
    ensures Occurrences(s) == Occurrences(s[1..])
  {
    assert !MatchAt(s, 0);
  }

  /** Occurrences the tests expect away from the start of the line. */
  lemma CountLaterExamples()
    ensures Occurrences("ABCXMASSSX") == 1
  {
    OccurrencesSkip("ABCXMASSSX");
    assert "ABCXMASSSX"[1..] == "BCXMASSSX";
    OccurrencesSkip("BCXMASSSX");
    assert "BCXMASSSX"[1..] == "CXMASSSX";
    OccurrencesSkip("CXMASSSX");
    assert "CXMASSSX"[1..] == "XMASSSX";
    OccurrencesAfterMatch("XMASSSX");
    assert "XMASSSX"[4..] == "SSX";
  }

  /** A line without an `X` holds no word. */
  lemma CountNoLetterExample()
    ensures Occurrences("123456789") == 0
  {
    var s := "123456789";
    forall j: nat
      ensures !MatchAt(s, j)
    {
      if j + 4 <= |s| {
        assert s[j..j + 4][0] == s[j] != 'X';
      }
    }
    OccurrencesNone(s);
  }

  /** The line of the test of `count_xmas_in_vec`: two words forwards and one backwards. */
  lemma CountInVecExample()
    ensures BothWays("XMASAMXMAS") == 3
  {
    ReverseExample();
    CountInVecForwards();
    CountInVecBackwards();
  }

  lemma CountInVecForwards()
    ensures Occurrences("XMASAMXMAS") == 2
  {
    OccurrencesAfterMatch("XMASAMXMAS");
    assert "XMASAMXMAS"[4..] == "AMXMAS";
    CountInVecTail();
  }

  lemma CountInVecTail()
    ensures Occurrences("AMXMAS") == 1
  {
    OccurrencesSkip("AMXMAS");
    assert "AMXMAS"[1..] == "MXMAS";
    OccurrencesSkip("MXMAS");
    assert "MXMAS"[1..] == "XMAS";
    OccurrencesAfterMatch("XMAS");
  }

  /** Read backwards, the line of the test of `count_xmas_in_vec` holds one word. */
  lemma CountInVecBackwards()
    ensures Occurrences(Reverse("XMASAMXMAS")) == 1
  {
    ReverseExample();
    OccurrencesSkip("SAMXMASAMX");
    assert "SAMXMASAMX"[1..] == "AMXMASAMX";
    OccurrencesSkip("AMXMASAMX");
    assert "AMXMASAMX"[1..] == "MXMASAMX";
    OccurrencesSkip("MXMASAMX");
    assert "MXMASAMX"[1..] == "XMASAMX";
    OccurrencesAfterMatch("XMASAMX");
    assert "XMASAMX"[4..] == "AMX";
  }

  lemma ReverseExample()
    ensures Reverse("XMASAMXMAS") == "SAMXMASAMX"
  {
  }

  // ---------------------------------------------------------------------------
  // Reshaping the grid
  // ---------------------------------------------------------------------------

  /** The grid has a first row and no row is shorter than it. */
  predicate Covers(g: Grid)
  {
    |g| > 0 && forall i :: 0 <= i < |g| ==> |g[0]| <= |g[i]|
  }

  /**
   * The sheared grids are twice as wide as the grid, so row `i` shifted by
   * `i` places stays inside them only while there are at most one more rows
   * than columns.
   */
  predicate Fits(g: Grid)
    requires |g| > 0
  {
    |g[0]| == 0 || |g| <= |g[0]| + 1
  }

  function Min(a: int, b: int): int
  {
    if a <= b then a else b
  }

  /** `n` copies of the padding character. */
  function Dots(n: nat): (r: string)
    ensures |r| == n && forall i :: 0 <= i < n ==> r[i] == '.'
  {
    seq(n, _ => '.')
  }

  /** Column `j` of `g`, read top to bottom. */
  function Column(g: Grid, j: nat): string
    requires forall i :: 0 <= i < |g| ==> j < |g[i]|
  {
    seq(|g|, i requires 0 <= i < |g| => g[i][j])
  }

  /**
   * The grid read column by column: row `j` of the transpose is column `j`
   * of the grid, for each column of the first row.
   */
  function Transpose(g: Grid): Grid
    requires Covers(g)
  {
    seq(|g[0]|, j requires 0 <= j < |g[0]| => Column(g, j))
  }

  /** A transpose has one row per column, each as long as the grid is tall. */
  lemma TransposeShape(g: Grid)
    requires Covers(g)
    ensures |Transpose(g)| == |g[0]|
    ensures forall j :: 0 <= j < |g[0]| ==> |Transpose(g)[j]| == |g|
    ensures forall j, i :: 0 <= j < |g[0]| && 0 <= i < |g| ==> Transpose(g)[j][i] == g[i][j]
  {
  }

  /** Transposing a rectangular grid with at least one column twice gives it back. */
  lemma TransposeTwice(g: Grid)
    requires Uniform(g) && |g[0]| > 0
    ensures Covers(Transpose(g)) && Transpose(Transpose(g)) == g
  {
    var t := Transpose(g);
    assert Covers(t);
    forall i | 0 <= i < |g|
      ensures Transpose(t)[i] == g[i]
    {
    }
  }

  /** The test of `change_rows_to_columns`. */
  lemma TransposeExample()
    ensures Transpose(["123", "456"]) == ["14", "25", "36"]
  {
    var g := ["123", "456"];
    assert Covers(g);
    assert Transpose(g)[0] == "14";
    assert Transpose(g)[1] == "25";
    assert Transpose(g)[2] == "36";
  }

  /** The first `i` rows, and the first `j` cells of row `i`, are copied. */
  ghost predicate TransposedUpTo(result: Grid, input: Grid, i: nat, j: nat)
    requires Covers(input) && i < |input|
  {
    |result| == |input[0]|
    && (forall j' :: 0 <= j' < |input[0]| ==> |result[j']| == |input|)
    && forall j', i' {:trigger result[j'][i']} :: 0 <= j' < |input[0]| && 0 <= i' < |input| ==>
         result[j'][i'] == if i' < i || (i' == i && j' < j) then input[i'][j'] else ' '
  }

  /** Copying cell `(i, j)` extends the copied part by one cell. */
  lemma TransposeStep(result: Grid, input: Grid, i: nat, j: nat)
    requires Covers(input) && i < |input| && j < |input[0]|
    requires TransposedUpTo(result, input, i, j)
    ensures TransposedUpTo(result[j := result[j][i := input[i][j]]], input, i, j + 1)
  {
    var next := result[j := result[j][i := input[i][j]]];
    forall j', i' | 0 <= j' < |input[0]| && 0 <= i' < |input|
      ensures next[j'][i'] == if i' < i || (i' == i && j' < j + 1) then input[i'][j'] else ' '
    {
      if j' == j && i' == i {
      } else {
        assert next[j'][i'] == result[j'][i'];
      }
    }
  }

  /** A completed row moves the copying on to the start of the next one. */
  lemma TransposeNextRow(result: Grid, input: Grid, i: nat)
    requires Covers(input) && i + 1 < |input|
    requires TransposedUpTo(result, input, i, |input[0]|)
    ensures TransposedUpTo(result, input, i + 1, 0)
  {
  }

  /**
   * `change_rows_to_columns`: a grid of blanks, one row per column of the
   * input, filled cell by cell with `result[j][i] = input[i][j]`.
   */
  method ChangeRowsToColumns(input: Grid) returns (result: Grid)
    requires Covers(input)
    ensures result == Transpose(input)
  {
    var rowCount := |input|;
    var colCount := |input[0]|;
    result := seq(colCount, _ => seq(rowCount, _ => ' '));
    for i := 0 to rowCount
      invariant i == rowCount || TransposedUpTo(result, input, i, 0)
      invariant i == rowCount ==> TransposedUpTo(result, input, rowCount - 1, colCount)
    {
      for j := 0 to colCount
        invariant TransposedUpTo(result, input, i, j)
      {
        TransposeStep(result, input, i, j);
        result := result[j := result[j][i := input[i][j]]];
      }
      if i + 1 < rowCount {
        TransposeNextRow(result, input, i);
      }
    }
    forall j | 0 <= j < colCount
      ensures result[j] == Column(input, j)
    {
    }
  }

  // ---------------------------------------------------------------------------
  // Shearing the diagonals into columns
  // ---------------------------------------------------------------------------

  /**
   * The two diagonal directions: `Anti` lines run from the bottom left to
   * the top right (`change_diag1_to_rows`), `Main` lines from the top left
   * to the bottom right (`change_diag2_to_rows`).
   */
  datatype Lean = Anti | Main

  /** How far row `i` is shifted right in the sheared grid. */
  function Offset(g: Grid, l: Lean, i: int): int
    requires |g| > 0
  {
    match l
    case Anti => i
    case Main => |g[0]| - i
  }

  /** Column `k` of the sheared grid holds a cell of row `i`. */
  predicate OnLine(g: Grid, l: Lean, k: int, i: int)
    requires |g| > 0
  {
    Offset(g, l, i) <= k < Offset(g, l, i) + |g[0]|
  }

  /**
   * The grid `change_diag1_to_rows` / `change_diag2_to_rows` builds before
   * transposing: twice as wide as the grid, row `i` shifted right by its
   * offset, `.` everywhere else.
   */
  function Shear(g: Grid, l: Lean): (r: Grid)
    requires Covers(g)
    ensures |r| == |g| && forall i :: 0 <= i < |r| ==> |r[i]| == 2 * |g[0]|
  {
    seq(|g|, i requires 0 <= i < |g| =>
      seq(2 * |g[0]|, k requires 0 <= k < 2 * |g[0]| =>
        if OnLine(g, l, k, i) then g[i][k - Offset(g, l, i)] else '.'))
  }

  /** The sheared grid read column by column: one diagonal per row. */
  function Diagonals(g: Grid, l: Lean): Grid
    requires Covers(g)
  {
    Transpose(Shear(g, l))
  }

  /**
   * When the grid has at most one more row than columns, every cell lands
   * inside the sheared grid, in the column of its diagonal.
   */
  lemma EveryCellOnALine(g: Grid, l: Lean, i: nat, j: nat)
    requires Covers(g) && Fits(g) && i < |g| && j < |g[0]|
    ensures 0 <= Offset(g, l, i) + j < 2 * |g[0]|
    ensures OnLine(g, l, Offset(g, l, i) + j, i)
    ensures Shear(g, l)[i][Offset(g, l, i) + j] == g[i][j]
  {
  }

  /** The rows of column `k` lie between `Start(g, l, k)` and `Stop(g, l, k)`. */
  function Start(g: Grid, l: Lean, k: int): nat
    requires |g| > 0
  {
    var bottom := match l case Anti => k - |g[0]| + 1 case Main => |g[0]| - k;
    Min(if bottom < 0 then 0 else bottom, |g|)
  }

  function Stop(g: Grid, l: Lean, k: int): (hi: nat)
    requires |g| > 0
    ensures Start(g, l, k) <= hi <= |g|
  {
    var top := match l case Anti => k + 1 case Main => 2 * |g[0]| - k;
    var hi := Min(top, |g|);
    if hi < Start(g, l, k) then Start(g, l, k) else hi
  }

  /** The rows with a cell in column `k` are exactly those from start to stop. */
  lemma Band(g: Grid, l: Lean, k: int, i: int)
    requires |g| > 0 && 0 <= i < |g|
    ensures OnLine(g, l, k, i) <==> Start(g, l, k) <= i < Stop(g, l, k)
  {
  }

  /**
   * Diagonal `k` of the grid read from the top row down: the cells `(i, j)`
   * with `i + j == k` for `Anti`, with `j - i == k - cols` for `Main`.
   */
  function Line(g: Grid, l: Lean, k: int): string
    requires Covers(g)
  {
    var lo := Start(g, l, k);
    var hi := Stop(g, l, k);
    seq(hi - lo, t requires 0 <= t < hi - lo =>
      Band(g, l, k, lo + t); g[lo + t][k - Offset(g, l, lo + t)])
  }

  /** Each row of a diagonal transform is its diagonal padded with `.` on both sides. */
  lemma DiagonalsRow(g: Grid, l: Lean, k: nat)
    requires Covers(g) && k < 2 * |g[0]|
    ensures Covers(Shear(g, l))
    ensures Diagonals(g, l)[k] == Dots(Start(g, l, k)) + Line(g, l, k) + Dots(|g| - Stop(g, l, k))
  {
    var lo, hi := Start(g, l, k), Stop(g, l, k);
    var row := Diagonals(g, l)[k];
    var padded := Dots(lo) + Line(g, l, k) + Dots(|g| - hi);
    assert |row| == |g| == |padded|;
    forall i | 0 <= i < |g|
      ensures row[i] == padded[i]
    {
      Band(g, l, k, i);
    }
  }

  /** The first `i` rows, and the first `j` cells of row `i`, are placed. */
  ghost predicate ShearedUpTo(matrix: Grid, input: Grid, l: Lean, i: nat, j: nat)
    requires Covers(input) && i < |input|
  {
    |matrix| == |input|
    && (forall i' :: 0 <= i' < |input| ==> |matrix[i']| == 2 * |input[0]|)
    && forall i', k {:trigger matrix[i'][k]} :: 0 <= i' < |input| && 0 <= k < 2 * |input[0]| ==>
         matrix[i'][k] ==
           if OnLine(input, l, k, i') && (i' < i || (i' == i && k - Offset(input, l, i') < j))
           then input[i'][k - Offset(input, l, i')] else '.'
  }

  /** Placing cell `(i, j)` at its shifted column extends the placed part by one cell. */
  lemma ShearStep(matrix: Grid, input: Grid, l: Lean, i: nat, j: nat)
    requires Covers(input) && Fits(input) && i < |input| && j < |input[0]|
    requires ShearedUpTo(matrix, input, l, i, j)
    ensures 0 <= Offset(input, l, i) + j < 2 * |input[0]|
    ensures ShearedUpTo(matrix[i := matrix[i][Offset(input, l, i) + j := input[i][j]]], input, l, i, j + 1)
  {
    var c := Offset(input, l, i) + j;
    var next := matrix[i := matrix[i][c := input[i][j]]];
    forall i', k | 0 <= i' < |input| && 0 <= k < 2 * |input[0]|
      ensures next[i'][k] ==
        if OnLine(input, l, k, i') && (i' < i || (i' == i && k - Offset(input, l, i') < j + 1))
        then input[i'][k - Offset(input, l, i')] else '.'
    {
      if i' == i && k == c {
      } else {
        assert next[i'][k] == matrix[i'][k];
      }
    }
  }

  /** A completed row moves the placing on to the start of the next one. */
  lemma ShearNextRow(matrix: Grid, input: Grid, l: Lean, i: nat)
    requires Covers(input) && i + 1 < |input|
    requires ShearedUpTo(matrix, input, l, i, |input[0]|)
    ensures ShearedUpTo(matrix, input, l, i + 1, 0)
  {
  }

  /** With every row placed, the matrix is the sheared grid. */
  lemma ShearDone(matrix: Grid, input: Grid, l: Lean)
    requires Covers(input)
    requires ShearedUpTo(matrix, input, l, |input| - 1, |input[0]|)
    ensures matrix == Shear(input, l)
  {
    forall i | 0 <= i < |input|
      ensures matrix[i] == Shear(input, l)[i]
    {
    }
  }

  /**
   * `change_diag1_to_rows`: a grid of `.` twice as wide as the input, row
   * `i` copied in shifted right by `i`, then transposed. The shifted cells
   * stay inside the grid only when it has at most one more row than columns.
   */
  method ChangeDiag1ToRows(input: Grid) returns (result: Grid)
    requires Covers(input) && Fits(input)
    ensures result == Diagonals(input, Anti)
  {
    var rowCount := |input|;
    var origColumnCount := |input[0]|;
    var columnCount := origColumnCount * 2;
    var matrix := seq(rowCount, _ => seq(columnCount, _ => '.'));
    for i := 0 to rowCount
      invariant i == rowCount || ShearedUpTo(matrix, input, Anti, i, 0)
      invariant i == rowCount ==> ShearedUpTo(matrix, input, Anti, rowCount - 1, origColumnCount)
    {
      for j := 0 to origColumnCount
        invariant ShearedUpTo(matrix, input, Anti, i, j)
      {
        ShearStep(matrix, input, Anti, i, j);
        matrix := matrix[i := matrix[i][i + j := input[i][j]]];
      }
      if i + 1 < rowCount {
        ShearNextRow(matrix, input, Anti, i);
      }
    }
    ShearDone(matrix, input, Anti);
    result := ChangeRowsToColumns(matrix);
  }

  /**
   * `change_diag2_to_rows`: as `change_diag1_to_rows`, but row `i` is
   * shifted right by `cols - i`, which needs `i <= cols` for every row.
   */
  method ChangeDiag2ToRows(input: Grid) returns (result: Grid)
    requires Covers(input) && Fits(input)
    ensures result == Diagonals(input, Main)
  {
    var rowCount := |input|;
    var origColumnCount := |input[0]|;
    var columnCount := origColumnCount * 2;
    var matrix := seq(rowCount, _ => seq(columnCount, _ => '.'));
    for i := 0 to rowCount
      invariant i == rowCount || ShearedUpTo(matrix, input, Main, i, 0)
      invariant i == rowCount ==> ShearedUpTo(matrix, input, Main, rowCount - 1, origColumnCount)
    {
      for j := 0 to origColumnCount
        invariant ShearedUpTo(matrix, input, Main, i, j)
      {
        ShearStep(matrix, input, Main, i, j);
        matrix := matrix[i := matrix[i][j + (origColumnCount - i) := input[i][j]]];
      }
      if i + 1 < rowCount {
        ShearNextRow(matrix, input, Main, i);
      }
    }
    ShearDone(matrix, input, Main);
    result := ChangeRowsToColumns(matrix);
  }

  // ---------------------------------------------------------------------------
  // Part one: every line of the grid, both ways
  // ---------------------------------------------------------------------------

  /** Padding at the front of a line adds no occurrences. */
  lemma {:induction false} OccurrencesDotsBefore(n: nat, s: string)
    ensures Occurrences(Dots(n) + s) == Occurrences(s)
    decreases n
  {
    if n > 0 {
      OccurrencesSkip(Dots(n) + s);
      assert (Dots(n) + s)[1..] == Dots(n - 1) + s;
      OccurrencesDotsBefore(n - 1, s);
    } else {
      assert Dots(n) + s == s;
    }
  }

  /** Padding at the end of a line adds no occurrences. */
  lemma {:induction false} OccurrencesDotsAfter(s: string, n: nat)
    ensures Occurrences(s + Dots(n)) == Occurrences(s)
    decreases |s|
  {
    var t := s + Dots(n);
    if |s| == 0 {
      assert t == Dots(n) + [];
      OccurrencesDotsBefore(n, []);
    } else {
      assert t[1..] == s[1..] + Dots(n);
      OccurrencesDotsAfter(s[1..], n);
      if |s| < 4 {
        if |t| >= 4 {
          assert t[..4][|s|] == '.';
        }
      } else {
        assert t[..4] == s[..4];
      }
    }
  }

  lemma ReverseConcat(a: string, b: string)
    ensures Reverse(a + b) == Reverse(b) + Reverse(a)
  {
  }

  /** A line padded with `.` on both sides reads as the line itself, both ways. */
  lemma BothWaysPadded(a: nat, s: string, b: nat)
    ensures BothWays(Dots(a) + s + Dots(b)) == BothWays(s)
  {
    assert Dots(a) + s + Dots(b) == Dots(a) + (s + Dots(b));
    OccurrencesDotsBefore(a, s + Dots(b));
    OccurrencesDotsAfter(s, b);
    ReverseConcat(Dots(a) + s, Dots(b));
    ReverseConcat(Dots(a), s);
    assert Reverse(Dots(a)) == Dots(a);
    assert Reverse(Dots(b)) == Dots(b);
    assert Dots(b) + (Reverse(s) + Dots(a)) == Dots(b) + Reverse(s) + Dots(a);
    OccurrencesDotsBefore(b, Reverse(s) + Dots(a));
    OccurrencesDotsAfter(Reverse(s), a);
  }

  /** The occurrences in each line, both ways, summed over the lines. */
  function Total(lines: seq<string>): nat
  {
    if |lines| == 0 then 0 else Total(lines[..|lines| - 1]) + BothWays(lines[|lines| - 1])
  }

  /** Lines with the same counts have the same total. */
  lemma {:induction false} TotalPointwise(a: seq<string>, b: seq<string>)
    requires |a| == |b| && forall i :: 0 <= i < |a| ==> BothWays(a[i]) == BothWays(b[i])
    ensures Total(a) == Total(b)
  {
    if |a| > 0 {
      TotalPointwise(a[..|a| - 1], b[..|b| - 1]);
    }
  }

  /** Every diagonal of one direction, one per column of the sheared grid. */
  function AllLines(g: Grid, l: Lean): seq<string>
    requires Covers(g)
  {
    seq(2 * |g[0]|, k requires 0 <= k < 2 * |g[0]| => Line(g, l, k))
  }

  /** Counting the rows of a diagonal transform counts the diagonals themselves. */
  lemma DiagonalsTotal(g: Grid, l: Lean)
    requires Covers(g)
    ensures Total(Diagonals(g, l)) == Total(AllLines(g, l))
  {
    TransposeShape(Shear(g, l));
    forall k | 0 <= k < 2 * |g[0]|
      ensures BothWays(Diagonals(g, l)[k]) == BothWays(AllLines(g, l)[k])
    {
      DiagonalsRow(g, l, k);
      BothWaysPadded(Start(g, l, k), Line(g, l, k), |g| - Stop(g, l, k));
    }
    TotalPointwise(Diagonals(g, l), AllLines(g, l));
  }

  /**
   * The number of `XMAS` read in any of the eight directions: along the
   * rows, the columns and both families of diagonals, each forwards and
   * backwards.
   */
  function PuzzleCount(g: Grid): nat
    requires Covers(g)
  {
    Total(g) + Total(Transpose(g)) + Total(AllLines(g, Anti)) + Total(AllLines(g, Main))
  }

  /** `.iter().map(count_xmas_in_vec).sum()`: the counts of the lines added up. */
  method CountInLines(lines: seq<string>) returns (n: nat)
    ensures n == Total(lines)
  {
    n := 0;
    for i := 0 to |lines|
      invariant n == Total(lines[..i])
    {
      var k := CountXmasInVec(lines[i]);
      assert lines[..i + 1][..i] == lines[..i];
      n := n + k;
    }
    assert lines[..|lines|] == lines;
  }

  /**
   * `count_xmas_in_puzzle`: the counts over the rows, the columns and the
   * two diagonal transforms.
   */
  method CountXmasInPuzzle(input: Grid) returns (count: nat)
    requires Covers(input) && Fits(input)
    ensures count == PuzzleCount(input)
  {
    count := CountInLines(input);
    var columns := ChangeRowsToColumns(input);
    var n := CountInLines(columns);
    count := count + n;
    var anti := ChangeDiag1ToRows(input);
    n := CountInLines(anti);
    DiagonalsTotal(input, Anti);
    count := count + n;
    var main := ChangeDiag2ToRows(input);
    n := CountInLines(main);
    DiagonalsTotal(input, Main);
    count := count + n;
  }

  /** `part_one`: the `XMAS` count of the puzzle. */
  method PartOne(input: string) returns (r: Option<nat>)
    requires LoadGrid(input).Some? && Fits(LoadGrid(input).value)
    ensures r == Some(PuzzleCount(LoadGrid(input).value))
  {
    var count := CountXmasInPuzzle(LoadGrid(input).value);
    r := Some(count);
  }

  // ---------------------------------------------------------------------------
  // Part two: crossed MAS in 3-by-3 windows
  // ---------------------------------------------------------------------------

  /**
   * `is_x_mas`: the centre is `A` and each diagonal has an `M` at one end and
   * an `S` at the other. The source asserts the window is three rows of
   * which the first is three wide, and indexes the others.
   */
  function IsXMas(w: Grid): (r: bool)
    requires |w| == 3 && |w[0]| == 3 && |w[1]| >= 2 && |w[2]| >= 3
    ensures r <==> w[1][1] == 'A' && {w[0][0], w[2][2]} == {'M', 'S'} && {w[0][2], w[2][0]} == {'M', 'S'}
  {
    EndsMS(w[0][0], w[2][2]);
    EndsMS(w[0][2], w[2][0]);
    if w[1][1] != 'A' then false
    else if (w[0][0] == 'M' && w[2][2] == 'S') || (w[0][0] == 'S' && w[2][2] == 'M') then
      (w[0][2] == 'M' && w[2][0] == 'S') || (w[0][2] == 'S' && w[2][0] == 'M')
    else false
  }

  /** Two ends hold `M` and `S` exactly when one is `M` and the other `S`. */
  lemma EndsMS(a: char, b: char)
    ensures {a, b} == {'M', 'S'} <==> (a == 'M' && b == 'S') || (a == 'S' && b == 'M')
  {
    if {a, b} == {'M', 'S'} {
      assert a in {'M', 'S'} && b in {'M', 'S'};
      assert 'M' in {a, b} && 'S' in {a, b};
    }
  }

  /** The windows of the tests: the four crossings and two near misses. */
  lemma IsXMasExamples()
    ensures IsXMas(["M.M", ".A.", "S.S"])
    ensures IsXMas(["M.S", ".A.", "M.S"])
    ensures IsXMas(["S.M", ".A.", "S.M"])
    ensures IsXMas(["S.S", ".A.", "M.M"])
    ensures !IsXMas(["S.S", ".A.", "M.."])
    ensures !IsXMas(["S.S", "...", "M.M"])
  {
  }

  /**
   * The window `count_x_mas_in_puzzle` builds at `(i, j)`: row `a` of the
   * window is column `j + a` of the grid, read down rows `i` to `i + 2`.
   */
  function Window(g: Grid, i: nat, j: nat): (w: Grid)
    requires i + 2 < |g| && j + 2 < |g[i]| && j + 2 < |g[i + 1]| && j + 2 < |g[i + 2]|
  {
    [[g[i][j], g[i + 1][j], g[i + 2][j]],
     [g[i][j + 1], g[i + 1][j + 1], g[i + 2][j + 1]],
     [g[i][j + 2], g[i + 1][j + 2], g[i + 2][j + 2]]]
  }

  /** The 3-by-3 block of the grid with top-left corner `(i, j)` is a crossed `MAS`. */
  predicate XAt(g: Grid, i: int, j: int)
    requires Covers(g) && 0 <= i && i + 2 < |g| && 0 <= j && j + 2 < |g[0]|
  {
    assert |g[0]| <= |g[i]| && |g[0]| <= |g[i + 2]|;
    g[i + 1][j + 1] == 'A'
    && {g[i][j], g[i + 2][j + 2]} == {'M', 'S'}
    && {g[i][j + 2], g[i + 2][j]} == {'M', 'S'}
  }

  /** Testing the transposed window is testing the block itself. */
  lemma WindowXMas(g: Grid, i: nat, j: nat)
    requires Covers(g) && i + 2 < |g| && j + 2 < |g[0]|
    ensures IsXMas(Window(g, i, j)) <==> XAt(g, i, j)
  {
    assert |g[0]| <= |g[i + 1]|;
    assert {g[i + 2][j], g[i][j + 2]} == {g[i][j + 2], g[i + 2][j]};
  }

  /** The top-left corners of the crossed `MAS` blocks of the grid. */
  ghost function XCorners(g: Grid): set<(int, int)>
    requires Covers(g)
  {
    set i, j | 0 <= i < |g| - 2 && 0 <= j < |g[0]| - 2 && XAt(g, i, j) :: (i, j)
  }

  /** The corners found by a row-major scan that has reached `(i, j)`. */
  ghost function Found(g: Grid, i: int, j: int): set<(int, int)>
    requires Covers(g)
  {
    set y, x | 0 <= y < |g| - 2 && 0 <= x < |g[0]| - 2 && (y < i || (y == i && x < j)) && XAt(g, y, x) :: (y, x)
  }

  /** Testing the block at `(i, j)` adds it, and only it, to the corners found. */
  lemma FoundStep(g: Grid, i: nat, j: nat)
    requires Covers(g) && i + 2 < |g| && j + 2 < |g[0]|
    ensures (i, j) !in Found(g, i, j)
    ensures Found(g, i, j + 1) == Found(g, i, j) + if XAt(g, i, j) then {(i, j)} else {}
  {
  }

  /** After the last block of a row the scan continues at the next row. */
  lemma FoundNextRow(g: Grid, i: int)
    requires Covers(g)
    ensures Found(g, i, |g[0]| - 2) == Found(g, i + 1, 0)
  {
  }

  /** Once every row is scanned, all the corners are found. */
  lemma FoundAll(g: Grid)
    requires Covers(g)
    ensures Found(g, |g| - 2, 0) == XCorners(g)
  {
  }

  /**
   * `count_x_mas_in_puzzle`: tests the window at every top-left corner
   * `(i, j)` with `i < rows - 2` and `j < cols - 2`, once each, in row-major
   * order. The source computes `rows - 2` and, when there is a third row,
   * `cols - 2` in unsigned arithmetic, so it panics unless both are at
   * least 0.
   */
  method CountXMasInPuzzle(input: Grid) returns (count: nat)
    requires Covers(input) && |input| >= 2 && (|input| > 2 ==> |input[0]| >= 2)
    ensures count == |XCorners(input)|
  {
    var rowCount := |input|;
    var colCount := |input[0]|;
    count := 0;
    for i := 0 to rowCount - 2
      invariant count == |Found(input, i, 0)|
    {
      for j := 0 to colCount - 2
        invariant count == |Found(input, i, j)|
      {
        assert |input[0]| <= |input[i + 1]| && |input[0]| <= |input[i + 2]|;
        var evalXMas := Window(input, i, j);
        FoundStep(input, i, j);
        WindowXMas(input, i, j);
        if IsXMas(evalXMas) {
          count := count + 1;
        }
      }
      FoundNextRow(input, i);
    }
    FoundAll(input);
  }

  /** `part_two`: the number of crossed `MAS` blocks in the puzzle. */
  method PartTwo(input: string) returns (r: Option<nat>)
    requires LoadGrid(input).Some?
    requires |LoadGrid(input).value| >= 2
    requires |LoadGrid(input).value| > 2 ==> |LoadGrid(input).value[0]| >= 2
    ensures r == Some(|XCorners(LoadGrid(input).value)|)
  {
    var count := CountXMasInPuzzle(LoadGrid(input).value);
    r := Some(count);
  }
}
