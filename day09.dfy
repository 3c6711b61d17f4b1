/**
 * Day 9: a disk map expands into blocks of files and free space; the
 * compaction moves file blocks from the end of the disk into free blocks near
 * the start, and part one is the checksum of the compacted disk.
 *
 * Where the solution panics (an index that underflows, an arithmetic
 * overflow, a failed assertion) the model returns `None`.
 */
module Day09 {
  import opened Wrappers
  import opened Text

  const U64_MAX: nat := 0xFFFF_FFFF_FFFF_FFFF

  datatype Block = File(id: nat) | Free

  /** A disk: its blocks in order. */
  datatype Disk = Disk(blocks: seq<Block>)

  /** `k` copies of a block. */
  function Repeat(b: Block, k: nat): (r: seq<Block>)
    ensures |r| == k && forall j :: 0 <= j < k ==> r[j] == b
  {
    if k == 0 then [] else Repeat(b, k - 1) + [b]
  }

  /** The disk map is a run of decimal digits, one per character of the trimmed text. */
  predicate AllDigits(s: string)
  {
    forall i :: 0 <= i < |s| ==> IsDigit(s[i])
  }

  /**
   * The blocks of the disk map from digit `i` on, the file there having id
   * `id`: digit `i` is the length of the file, the digit after it (when there
   * is one) the length of the free space that follows.
   */
  function ExpandFrom(s: string, i: nat, id: nat): seq<Block>
    requires AllDigits(s)
    decreases |s| - i
  {
    if i >= |s| then []
    else
      Repeat(File(id), DigitValue(s[i]))
      + (if i + 1 < |s| then Repeat(Free, DigitValue(s[i + 1])) else [])
      + ExpandFrom(s, i + 2, id + 1)
  }

  /** The sum of the digits from `i` on. */
  function DigitSum(s: string, i: nat): nat
    requires AllDigits(s)
    decreases |s| - i
  {
    if i >= |s| then 0 else DigitValue(s[i]) + DigitSum(s, i + 1)
  }

  /** The disk has as many blocks as the digits add up to. */
  lemma {:induction false} ExpandLength(s: string, i: nat, id: nat)
    requires AllDigits(s)
    ensures |ExpandFrom(s, i, id)| == DigitSum(s, i)
    decreases |s| - i
  {
    if i < |s| {
      ExpandLength(s, i + 2, id + 1);
      if i + 1 < |s| {
        assert DigitSum(s, i) == DigitValue(s[i]) + DigitValue(s[i + 1]) + DigitSum(s, i + 2);
      }
    }
  }

  /** Appends `count` copies of a block: the inner push loops of `Disk::new`. */
  method PushRun(blocks: seq<Block>, b: Block, count: nat) returns (r: seq<Block>)
    ensures r == blocks + Repeat(b, count)
  {
    r := blocks;
    for k := 0 to count
      invariant r == blocks + Repeat(b, k)
    {
      r := r + [b];
    }
  }

  /** One turn of the outer loop of `Disk::new`: the file run of digit `i` and the free run after it. */
  method PushPair(blocks: seq<Block>, s: string, i: nat, id: nat) returns (next: seq<Block>)
    requires AllDigits(s) && i < |s|
    ensures next + ExpandFrom(s, i + 2, id + 1) == blocks + ExpandFrom(s, i, id)
  {
    var files := Repeat(File(id), DigitValue(s[i]));
    var rest := ExpandFrom(s, i + 2, id + 1);
    next := PushRun(blocks, File(id), DigitValue(s[i]));
    if i + 1 < |s| {
      var frees := Repeat(Free, DigitValue(s[i + 1]));
      next := PushRun(next, Free, DigitValue(s[i + 1]));
      assert ExpandFrom(s, i, id) == files + frees + rest;
      Assoc3(blocks, files, frees, rest);
    } else {
      assert ExpandFrom(s, i, id) == files + [] + rest;
      Assoc3(blocks, files, [], rest);
    }
  }

  lemma Assoc3(a: seq<Block>, b: seq<Block>, c: seq<Block>, d: seq<Block>)
    ensures a + b + c + d == a + (b + c + d)
  {
  }

  /** The outer loop of `Disk::new`, over a disk map of digits. */
  method Expand(s: string) returns (blocks: seq<Block>)
    requires AllDigits(s)
    ensures blocks == ExpandFrom(s, 0, 0)
  {
    blocks := [];
    var id := 0;
    var i := 0;
    while i < |s|
      invariant blocks + ExpandFrom(s, i, id) == ExpandFrom(s, 0, 0)
      decreases |s| - i
    {
      blocks := PushPair(blocks, s, i, id);
      i, id := i + 2, id + 1;
    }
    assert ExpandFrom(s, i, id) == [];
  }

  /** `Disk::new`: the expansion of the trimmed disk map (a non-digit would make `parse` panic). */
  method NewDisk(input: string) returns (disk: Disk)
    requires AllDigits(Trim(input))
    ensures disk.blocks == ExpandFrom(Trim(input), 0, 0)
    ensures |disk.blocks| == DigitSum(Trim(input), 0)
  {
    var s := Trim(input);
    var blocks := Expand(s);
    ExpandLength(s, 0, 0);
    disk := Disk(blocks);
  }

  // ---------------------------------------------------------------------------
  // Compaction
  // ---------------------------------------------------------------------------

  /** The index of the last file block at or before `e`, or -1 when there is none. */
  function LastFile(blocks: seq<Block>, e: int): (i: int)
    requires -1 <= e < |blocks|
    ensures -1 <= i <= e
    ensures i >= 0 ==> blocks[i].File?
    ensures forall j :: i < j <= e ==> blocks[j] == Free
    decreases e + 1
  {
    if e < 0 then -1 else if blocks[e].File? then e else LastFile(blocks, e - 1)
  }

  /** What `find_last_nonfree_block` gives: an index and a block, or a panic. */
  datatype Search = Underflow | Found(index: nat, block: Block)

  /**
   * `find_last_nonfree_block(e)`: for the last file block at index `i <= e`
   * it answers `i - 1` (so the index before the file) and the file; with no
   * file it answers `0` and a free block; a file at index 0 underflows.
   */
  function FindLast(blocks: seq<Block>, e: nat): (r: Search)
    requires e < |blocks|
    ensures r.Found? ==> r.index <= e
  {
    var i := LastFile(blocks, e);
    if i < 0 then Found(0, Free) else if i == 0 then Underflow else Found(i - 1, blocks[i])
  }

  /**
   * What the search finds: the file just after the index it answers, with
   * only free blocks after that file up to `e`; a free block only when
   * there is no file at all; a panic exactly when the only file is at index 0.
   */
  lemma FindLastFacts(blocks: seq<Block>, e: nat)
    requires e < |blocks|
    ensures var r := FindLast(blocks, e);
      (r.Found? && r.block.File? ==> r.index + 1 <= e && blocks[r.index + 1] == r.block
                                     && forall j :: r.index + 1 < j <= e ==> blocks[j] == Free)
      && (r.Found? && r.block == Free ==> r.index == 0 && forall j :: 0 <= j <= e ==> blocks[j] == Free)
      && (r.Underflow? <==> blocks[0].File? && forall j :: 0 < j <= e ==> blocks[j] == Free)
  {
  }

  /** The two-pointer loop of `optimize`, continued from `start`, `end` and the output so far. */
  function Compact(blocks: seq<Block>, start: nat, end: nat, out: seq<Block>): Option<seq<Block>>
    requires end < |blocks| && |out| == |blocks| && start <= end + 1
    decreases end + 1 - start
  {
    if start > end then Some(out)
    else match blocks[start]
      case File(_) => Compact(blocks, start + 1, end, out[start := blocks[start]])
      case Free =>
        match FindLast(blocks, end)
        case Underflow => None
        case Found(newEnd, b) =>
          if newEnd > start then Compact(blocks, start + 1, newEnd, out[start := b])
          else Compact(blocks, start + 1, end, out)
  }

  /** `optimize`: `None` when it panics (on an empty disk, or when the search underflows). */
  function Optimized(blocks: seq<Block>): Option<seq<Block>>
  {
    if |blocks| == 0 then None else Compact(blocks, 0, |blocks| - 1, Repeat(Free, |blocks|))
  }

  /** `find_last_nonfree_block`, searching down from `endIndex`. */
  method FindLastNonfreeBlock(blocks: seq<Block>, endIndex: nat) returns (r: Search)
    requires endIndex < |blocks|
    ensures r == FindLast(blocks, endIndex)
  {
    var i := endIndex + 1;
    while i > 0
      invariant 0 <= i <= endIndex + 1
      invariant LastFile(blocks, endIndex) == LastFile(blocks, i - 1)
    {
      i := i - 1;
      if blocks[i].File? {
        if i == 0 {
          return Underflow;
        }
        return Found(i - 1, blocks[i]);
      }
    }
    return Found(0, Free);
  }

  /** `optimize`: fills a fresh all-free disk of the same size, front to back. */
  method Optimize(disk: Disk) returns (r: Option<Disk>)
    ensures r.None? <==> Optimized(disk.blocks).None?
    ensures r.Some? ==> r.value.blocks == Optimized(disk.blocks).value
  {
    var input := disk.blocks;
    if |input| == 0 {
      return None;
    }
    var startIndex: nat := 0;
    var endIndex: nat := |input| - 1;
    var optimized := new Block[|input|](_ => Free);
    assert optimized[..] == Repeat(Free, |input|);
    while startIndex <= endIndex
      invariant endIndex < |input| && startIndex <= endIndex + 1 && optimized.Length == |input|
      invariant Compact(input, startIndex, endIndex, optimized[..]) == Optimized(input)
      decreases endIndex + 1 - startIndex
    {
      match input[startIndex] {
        case File(_) =>
          optimized[startIndex] := input[startIndex];
        case Free =>
          var found := FindLastNonfreeBlock(input, endIndex);
          if found.Underflow? {
            return None;
          }
          if found.index > startIndex {
            optimized[startIndex] := found.block;
            endIndex := found.index;
          }
      }
      startIndex := startIndex + 1;
    }
    r := Some(Disk(optimized[..]));
  }

  /** The free blocks of a disk, as a multiset. */
  function Frees(k: nat): multiset<Block>
  {
    multiset{}[Free := k]
  }

  lemma {:induction false} AllFreeMultiset(s: seq<Block>)
    requires forall j :: 0 <= j < |s| ==> s[j] == Free
    ensures multiset(s) == Frees(|s|)
    decreases |s|
  {
    if s != [] {
      assert s == s[..|s| - 1] + [Free];
      AllFreeMultiset(s[..|s| - 1]);
    }
  }

  /**
   * What the loop keeps: the output from `start` on is still free, and the
   * output before `start`, the input still to visit and one free block for
   * every index past `end` make up the blocks of the input.
   */
  ghost predicate CompactInv(blocks: seq<Block>, start: nat, end: nat, out: seq<Block>)
    requires end < |blocks| && |out| == |blocks| && start <= end + 1
  {
    (forall j :: start <= j < |out| ==> out[j] == Free)
    && multiset(out[..start]) + multiset(blocks[start..end + 1]) + Frees(|blocks| - end - 1) == multiset(blocks)
  }

  /** A file at `start` is copied in place. */
  lemma CompactInvFile(blocks: seq<Block>, start: nat, end: nat, out: seq<Block>)
    requires end < |blocks| && |out| == |blocks| && start <= end
    requires CompactInv(blocks, start, end, out)
    ensures CompactInv(blocks, start + 1, end, out[start := blocks[start]])
  {
    var out' := out[start := blocks[start]];
    assert out'[..start + 1] == out[..start] + [blocks[start]];
    assert multiset(out'[..start + 1]) == multiset(out[..start]) + multiset{blocks[start]};
    assert blocks[start..end + 1] == [blocks[start]] + blocks[start + 1..end + 1];
    assert multiset(blocks[start..end + 1]) == multiset{blocks[start]} + multiset(blocks[start + 1..end + 1]);
  }

  /** A free block at `start` that stays free. */
  lemma CompactInvSkip(blocks: seq<Block>, start: nat, end: nat, out: seq<Block>)
    requires end < |blocks| && |out| == |blocks| && start <= end
    requires blocks[start] == Free
    requires CompactInv(blocks, start, end, out)
    ensures CompactInv(blocks, start + 1, end, out)
  {
    assert out[..start + 1] == out[..start] + [Free];
    assert blocks[start..end + 1] == [Free] + blocks[start + 1..end + 1];
  }

  /** Writing block `b` at `start` adds it to the output before `start + 1`. */
  lemma WriteAt(out: seq<Block>, start: nat, b: Block)
    requires start < |out|
    ensures multiset(out[start := b][..start + 1]) == multiset(out[..start]) + multiset{b}
  {
    assert out[start := b][..start + 1] == out[..start] + [b];
  }

  /** Swapping the free block at `start` with the file at `i`, past which only free blocks remain up to `end`. */
  lemma SwapCounts(blocks: seq<Block>, start: nat, i: nat, end: nat)
    requires start < i <= end < |blocks| && blocks[start] == Free
    requires forall j :: i < j <= end ==> blocks[j] == Free
    ensures multiset(blocks[start..end + 1]) + Frees(|blocks| - end - 1)
         == multiset{blocks[i]} + multiset(blocks[start + 1..i]) + Frees(|blocks| - i)
  {
    var tail := blocks[i + 1..end + 1];
    assert blocks[start..end + 1] == [Free] + blocks[start + 1..i] + [blocks[i]] + tail;
    AllFreeMultiset(tail);
  }

  /** A free block at `start` that receives the file the search finds, which lies past `start + 1`. */
  lemma CompactInvMove(blocks: seq<Block>, start: nat, end: nat, out: seq<Block>)
    requires end < |blocks| && |out| == |blocks| && start <= end
    requires blocks[start] == Free
    requires FindLast(blocks, end).Found? && FindLast(blocks, end).index > start
    requires CompactInv(blocks, start, end, out)
    ensures CompactInv(blocks, start + 1, FindLast(blocks, end).index, out[start := FindLast(blocks, end).block])
  {
    FindLastFacts(blocks, end);
    var r := FindLast(blocks, end);
    var i := r.index + 1;
    assert r.block == blocks[i];
    MoveCounts(blocks, start, i, end, out);
    assert |blocks| - r.index - 1 == |blocks| - i;
    assert blocks[start + 1..r.index + 1] == blocks[start + 1..i];
  }

  /** Moving the file at `i` to the free block at `start` keeps the blocks' count. */
  lemma MoveCounts(blocks: seq<Block>, start: nat, i: nat, end: nat, out: seq<Block>)
    requires start < i <= end < |blocks| && |out| == |blocks| && blocks[start] == Free
    requires forall j :: i < j <= end ==> blocks[j] == Free
    requires multiset(out[..start]) + multiset(blocks[start..end + 1]) + Frees(|blocks| - end - 1) == multiset(blocks)
    ensures multiset(out[start := blocks[i]][..start + 1]) + multiset(blocks[start + 1..i]) + Frees(|blocks| - i) == multiset(blocks)
  {
    WriteAt(out, start, blocks[i]);
    SwapCounts(blocks, start, i, end);
    var out' := out[start := blocks[i]];
    calc {
      multiset(out'[..start + 1]) + multiset(blocks[start + 1..i]) + Frees(|blocks| - i);
      multiset(out[..start]) + (multiset{blocks[i]} + multiset(blocks[start + 1..i]) + Frees(|blocks| - i));
      multiset(out[..start]) + (multiset(blocks[start..end + 1]) + Frees(|blocks| - end - 1));
      multiset(blocks);
    }
  }

  /** A result of `optimize` that, unless it panicked, holds the same blocks as the input. */
  predicate Preserves(blocks: seq<Block>, r: Option<seq<Block>>)
  {
    r.Some? ==> |r.value| == |blocks| && multiset(r.value) == multiset(blocks)
  }

  /** The loop never loses or invents a block. */
  lemma {:induction false} CompactPreserves(blocks: seq<Block>, start: nat, end: nat, out: seq<Block>)
    requires end < |blocks| && |out| == |blocks| && start <= end + 1
    requires CompactInv(blocks, start, end, out)
    ensures Preserves(blocks, Compact(blocks, start, end, out))
    decreases end + 1 - start, 2
  {
    if start > end {
      assert out == out[..start] + out[start..];
      AllFreeMultiset(out[start..]);
    } else if blocks[start].File? {
      CompactInvFile(blocks, start, end, out);
      CompactPreserves(blocks, start + 1, end, out[start := blocks[start]]);
    } else {
      CompactPreservesFree(blocks, start, end, out);
    }
  }

  /** The case of a free block at `start`. */
  lemma {:induction false} CompactPreservesFree(blocks: seq<Block>, start: nat, end: nat, out: seq<Block>)
    requires end < |blocks| && |out| == |blocks| && start <= end
    requires blocks[start] == Free
    requires CompactInv(blocks, start, end, out)
    ensures Preserves(blocks, Compact(blocks, start, end, out))
    decreases end + 1 - start, 1
  {
    var r := FindLast(blocks, end);
    if r.Found? && r.index > start {
      CompactPreservesMove(blocks, start, end, out);
    } else if r.Found? {
      assert Compact(blocks, start, end, out) == Compact(blocks, start + 1, end, out);
      CompactInvSkip(blocks, start, end, out);
      CompactPreserves(blocks, start + 1, end, out);
    }
  }

  /** The case of a free block at `start` that receives a file. */
  lemma {:induction false} CompactPreservesMove(blocks: seq<Block>, start: nat, end: nat, out: seq<Block>)
    requires end < |blocks| && |out| == |blocks| && start <= end
    requires blocks[start] == Free
    requires FindLast(blocks, end).Found? && FindLast(blocks, end).index > start
    requires CompactInv(blocks, start, end, out)
    ensures Preserves(blocks, Compact(blocks, start, end, out))
    decreases end + 1 - start, 0
  {
    var r := FindLast(blocks, end);
    var out' := out[start := r.block];
    assert Compact(blocks, start, end, out) == Compact(blocks, start + 1, r.index, out');
    CompactInvMove(blocks, start, end, out);
    CompactPreserves(blocks, start + 1, r.index, out');
  }

  /** A compacted disk has as many blocks as the input, and the same blocks. */
  lemma OptimizedPreserves(blocks: seq<Block>)
    ensures Preserves(blocks, Optimized(blocks))
  {
    if |blocks| > 0 {
      var out := Repeat(Free, |blocks|);
      assert out[..0] == [] && blocks[0..|blocks|] == blocks;
      CompactPreserves(blocks, 0, |blocks| - 1, out);
    }
  }

  /** An empty disk makes `optimize` panic. */
  lemma OptimizeEmpty()
    ensures Optimized([]).None?
  {
  }

  /** `"11"`, a file then a free block: the search finds the file at index 0 and underflows. */
  lemma OptimizeUnderflows()
    ensures Optimized([File(0), Free]).None?
  {
    var b := [File(0), Free];
    assert FindLast(b, 1) == Underflow;
    assert Compact(b, 1, 1, [File(0), Free]).None?;
  }

  /** `"111"`: the file right after the gap is never moved into it. */
  lemma OptimizeKeepsGap()
    ensures Optimized([File(0), Free, File(1)]) == Some([File(0), Free, File(1)])
  {
    var b := [File(0), Free, File(1)];
    assert FindLast(b, 2) == Found(1, File(1));
    assert Compact(b, 3, 2, [File(0), Free, File(1)]) == Some([File(0), Free, File(1)]);
    assert [File(0), Free, Free][2 := File(1)] == [File(0), Free, File(1)];
    assert Compact(b, 2, 2, [File(0), Free, Free]) == Some([File(0), Free, File(1)]);
    assert Compact(b, 1, 2, [File(0), Free, Free]) == Some([File(0), Free, File(1)]);
    assert Repeat(Free, 3)[0 := File(0)] == [File(0), Free, Free];
  }

  /** The sample disk of the tests, before compaction. */
  function SampleDisk(): seq<Block>
  {
    [File(0), Free, File(1), File(1), File(2), File(2), File(2), Free, Free, Free, File(3)]
  }

  /** `"1120331"` expands to the sample disk. */
  lemma ExpandSample()
    ensures ExpandFrom("1120331", 0, 0) == SampleDisk()
  {
    var s := "1120331";
    assert ExpandFrom(s, 8, 4) == [];
    assert ExpandFrom(s, 6, 3) == [File(3)];
    assert ExpandFrom(s, 4, 2) == [File(2), File(2), File(2), Free, Free, Free, File(3)];
    assert ExpandFrom(s, 2, 1) == [File(1), File(1)] + ExpandFrom(s, 4, 2);
    assert ExpandFrom(s, 0, 0) == [File(0), Free] + ExpandFrom(s, 2, 1);
  }

  /** The sample disk compacts to `0,3,1,1,2,2,2,.,.,.,.`: only the last file moves. */
  lemma OptimizeSample()
    ensures Optimized(SampleDisk()) == Some([File(0), File(3), File(1), File(1), File(2), File(2), File(2), Free, Free, Free, Free])
  {
    var b := SampleDisk();
    var done := [File(0), File(3), File(1), File(1), File(2), File(2), File(2), Free, Free, Free, Free];
    assert FindLast(b, 10) == Found(9, File(3));
    var o1 := Repeat(Free, 11)[0 := File(0)];
    var o2 := o1[1 := File(3)];
    assert Compact(b, 7, 9, done) == Some(done);
    assert o2[2 := File(1)][3 := File(1)][4 := File(2)][5 := File(2)][6 := File(2)] == done;
    assert Compact(b, 2, 9, o2) == Some(done);
    assert Compact(b, 1, 10, o1) == Some(done);
  }

  // ---------------------------------------------------------------------------
  // Compaction as evidently intended
  // ---------------------------------------------------------------------------

  /**
   * The two-pointer loop with the search answering the file's own index: a
   * free block at `start` receives the last file up to `end` whenever that
   * file lies past `start`, the one right after the gap included.
   */
  function CompactFixed(blocks: seq<Block>, start: nat, end: nat, out: seq<Block>): seq<Block>
    requires end < |blocks| && |out| == |blocks| && start <= end + 1
    decreases end + 1 - start
  {
    if start > end then out
    else match blocks[start]
      case File(_) => CompactFixed(blocks, start + 1, end, out[start := blocks[start]])
      case Free =>
        var i := LastFile(blocks, end);
        if i > start then CompactFixed(blocks, start + 1, i - 1, out[start := blocks[i]])
        else CompactFixed(blocks, start + 1, end, out)
  }

  /** The compaction as evidently intended: it never panics, an empty disk staying empty. */
  function OptimizedFixed(blocks: seq<Block>): seq<Block>
  {
    if |blocks| == 0 then [] else CompactFixed(blocks, 0, |blocks| - 1, Repeat(Free, |blocks|))
  }

  /** No free block comes before a file block: the files fill the front of the disk. */
  predicate Packed(s: seq<Block>)
  {
    forall j, k :: 0 <= j < k < |s| && s[j] == Free ==> s[k] == Free
  }

  /**
   * What the corrected loop keeps besides `CompactInv`: the output before
   * `start` is packed, and once it holds a free block no file is left to
   * visit.
   */
  ghost predicate FixedInv(blocks: seq<Block>, start: nat, end: nat, out: seq<Block>)
    requires end < |blocks| && |out| == |blocks| && start <= end + 1
  {
    CompactInv(blocks, start, end, out)
    && (forall j, k :: 0 <= j < k < start && out[j] == Free ==> out[k] == Free)
    && (forall j, k :: 0 <= j < start && start <= k <= end && out[j] == Free ==> blocks[k] == Free)
  }

  /** A file at `start` is copied in place. */
  lemma FixedInvFile(blocks: seq<Block>, start: nat, end: nat, out: seq<Block>)
    requires end < |blocks| && |out| == |blocks| && start <= end
    requires blocks[start].File?
    requires FixedInv(blocks, start, end, out)
    ensures FixedInv(blocks, start + 1, end, out[start := blocks[start]])
  {
    CompactInvFile(blocks, start, end, out);
  }

  /** A free block at `start` with no file left after it stays free. */
  lemma FixedInvSkip(blocks: seq<Block>, start: nat, end: nat, out: seq<Block>)
    requires end < |blocks| && |out| == |blocks| && start <= end
    requires blocks[start] == Free && LastFile(blocks, end) <= start
    requires FixedInv(blocks, start, end, out)
    ensures FixedInv(blocks, start + 1, end, out)
  {
    CompactInvSkip(blocks, start, end, out);
  }

  /** A free block at `start` receives the last file, which lies past it. */
  lemma FixedInvMove(blocks: seq<Block>, start: nat, end: nat, out: seq<Block>)
    requires end < |blocks| && |out| == |blocks| && start <= end
    requires blocks[start] == Free && LastFile(blocks, end) > start
    requires FixedInv(blocks, start, end, out)
    ensures FixedInv(blocks, start + 1, LastFile(blocks, end) - 1, out[start := blocks[LastFile(blocks, end)]])
  {
    var i := LastFile(blocks, end);
    MoveCounts(blocks, start, i, end, out);
    assert blocks[start + 1..(i - 1) + 1] == blocks[start + 1..i];
    forall j | 0 <= j < start
      ensures out[j] != Free
    {
      assert start <= i <= end && blocks[i] != Free;
    }
  }

  /** `r` holds the blocks of `blocks`, packed. */
  predicate CompactedFrom(blocks: seq<Block>, r: seq<Block>)
  {
    |r| == |blocks| && multiset(r) == multiset(blocks) && Packed(r)
  }

  /** When the pointers cross, the output is the result. */
  lemma FixedDone(blocks: seq<Block>, start: nat, end: nat, out: seq<Block>)
    requires end < |blocks| && |out| == |blocks| && start == end + 1
    requires FixedInv(blocks, start, end, out)
    ensures CompactedFrom(blocks, out)
  {
    assert out == out[..start] + out[start..];
    AllFreeMultiset(out[start..]);
    assert blocks[start..end + 1] == [];
    forall j, k | 0 <= j < k < |out| && out[j] == Free
      ensures out[k] == Free
    {
      if k < start {
        assert out[j] == Free;
      }
    }
  }

  /** The corrected loop ends with the blocks of the input, packed. */
  lemma {:induction false} CompactFixedPacked(blocks: seq<Block>, start: nat, end: nat, out: seq<Block>)
    requires end < |blocks| && |out| == |blocks| && start <= end + 1
    requires FixedInv(blocks, start, end, out)
    ensures CompactedFrom(blocks, CompactFixed(blocks, start, end, out))
    decreases end + 1 - start, 1
  {
    if start > end {
      FixedDone(blocks, start, end, out);
    } else if blocks[start].File? {
      CompactFixedPackedFile(blocks, start, end, out);
    } else {
      CompactFixedPackedFree(blocks, start, end, out);
    }
  }

  /** The case of a file at `start`. */
  lemma {:induction false} CompactFixedPackedFile(blocks: seq<Block>, start: nat, end: nat, out: seq<Block>)
    requires end < |blocks| && |out| == |blocks| && start <= end
    requires blocks[start].File?
    requires FixedInv(blocks, start, end, out)
    ensures CompactedFrom(blocks, CompactFixed(blocks, start, end, out))
    decreases end + 1 - start, 0
  {
    var out' := out[start := blocks[start]];
    CompactFixedFile(blocks, start, end, out);
    FixedInvFile(blocks, start, end, out);
    CompactFixedPacked(blocks, start + 1, end, out');
  }

  /** A file at `start` is copied and the loop moves on. */
  lemma CompactFixedFile(blocks: seq<Block>, start: nat, end: nat, out: seq<Block>)
    requires end < |blocks| && |out| == |blocks| && start <= end
    requires blocks[start].File?
    ensures CompactFixed(blocks, start, end, out) == CompactFixed(blocks, start + 1, end, out[start := blocks[start]])
  {
  }

  /** The case of a free block at `start`. */
  lemma {:induction false} CompactFixedPackedFree(blocks: seq<Block>, start: nat, end: nat, out: seq<Block>)
    requires end < |blocks| && |out| == |blocks| && start <= end
    requires blocks[start] == Free
    requires FixedInv(blocks, start, end, out)
    ensures CompactedFrom(blocks, CompactFixed(blocks, start, end, out))
    decreases end + 1 - start, 0
  {
    var i := LastFile(blocks, end);
    if i > start {
      assert CompactFixed(blocks, start, end, out) == CompactFixed(blocks, start + 1, i - 1, out[start := blocks[i]]);
      FixedInvMove(blocks, start, end, out);
      CompactFixedPacked(blocks, start + 1, i - 1, out[start := blocks[i]]);
    } else {
      assert CompactFixed(blocks, start, end, out) == CompactFixed(blocks, start + 1, end, out);
      FixedInvSkip(blocks, start, end, out);
      CompactFixedPacked(blocks, start + 1, end, out);
    }
  }

  /**
   * The corrected compaction keeps every block of the disk and leaves no
   * free block before a file block.
   */
  lemma OptimizedFixedPacked(blocks: seq<Block>)
    ensures |OptimizedFixed(blocks)| == |blocks| && multiset(OptimizedFixed(blocks)) == multiset(blocks)
    ensures Packed(OptimizedFixed(blocks))
  {
    if |blocks| > 0 {
      var out := Repeat(Free, |blocks|);
      assert out[..0] == [] && blocks[0..|blocks|] == blocks;
      CompactFixedPacked(blocks, 0, |blocks| - 1, out);
    }
  }

  /** `"111"` compacts to `0,1,.` once the file after the gap may move, and `"11"` no longer panics. */
  lemma OptimizedFixedSmall()
    ensures OptimizedFixed([File(0), Free, File(1)]) == [File(0), File(1), Free]
    ensures OptimizedFixed([File(0), Free]) == [File(0), Free]
  {
    var b := [File(0), Free, File(1)];
    assert LastFile(b, 2) == 2;
    assert Repeat(Free, 3)[0 := File(0)] == [File(0), Free, Free];
    assert [File(0), Free, Free][1 := File(1)] == [File(0), File(1), Free];
    assert CompactFixed(b, 1, 2, [File(0), Free, Free]) == CompactFixed(b, 2, 1, [File(0), File(1), Free]);
    var c := [File(0), Free];
    assert LastFile(c, 1) == 0;
    assert Repeat(Free, 2)[0 := File(0)] == [File(0), Free];
    assert CompactFixed(c, 1, 1, [File(0), Free]) == CompactFixed(c, 2, 1, [File(0), Free]);
  }

  /** The as-written result for `"111"` is not packed: the gap stays before file 1. */
  lemma OptimizeKeepsGapUnpacked()
    ensures Optimized([File(0), Free, File(1)]).Some? && !Packed(Optimized([File(0), Free, File(1)]).value)
  {
    OptimizeKeepsGap();
    var s := [File(0), Free, File(1)];
    assert s[1] == Free && s[2] != Free;
  }

  // ---------------------------------------------------------------------------
  // Checksum and consistency
  // ---------------------------------------------------------------------------

  /** The contribution of one block to the checksum. */
  function Weight(b: Block, i: nat): nat
  {
    match b
    case File(id) => id * i
    case Free => 0
  }

  /** Σ i·id over the file blocks, with unbounded integers. */
  function ChecksumSum(blocks: seq<Block>): nat
  {
    if blocks == [] then 0
    else ChecksumSum(blocks[..|blocks| - 1]) + Weight(blocks[|blocks| - 1], |blocks| - 1)
  }

  /** The checksum never shrinks as blocks are added. */
  lemma {:induction false} ChecksumMonotone(blocks: seq<Block>, i: nat)
    requires i <= |blocks|
    ensures ChecksumSum(blocks[..i]) <= ChecksumSum(blocks)
    decreases |blocks| - i
  {
    if i < |blocks| {
      TakeTake(blocks, i);
      ChecksumMonotone(blocks, i + 1);
    } else {
      assert blocks[..i] == blocks;
    }
  }

  lemma ChecksumAppend(s: seq<Block>, b: Block)
    ensures ChecksumSum(s + [b]) == ChecksumSum(s) + Weight(b, |s|)
  {
    assert (s + [b])[..|s|] == s;
  }

  /** The compacted sample disk has checksum 0·0 + 3·1 + 1·2 + 1·3 + 2·4 + 2·5 + 2·6. */
  lemma ChecksumSample()
    ensures ChecksumSum([File(0), File(3), File(1), File(1), File(2), File(2), File(2), Free, Free, Free, Free]) == 38
  {
    var d: seq<Block> := [];
    var ids := [0, 3, 1, 1, 2, 2, 2];
    var sums := [0, 3, 5, 8, 16, 26, 38];
    for k := 0 to 7
      invariant d == seq(k, j requires 0 <= j < k => File(ids[j]))
      invariant ChecksumSum(d) == (if k == 0 then 0 else sums[k - 1])
    {
      ChecksumAppend(d, File(ids[k]));
      d := d + [File(ids[k])];
    }
    for k := 7 to 11
      invariant |d| == k && ChecksumSum(d) == 38
      invariant d == [File(0), File(3), File(1), File(1), File(2), File(2), File(2)] + seq(k - 7, j => Free)
    {
      ChecksumAppend(d, Free);
      d := d + [Free];
    }
    assert d == [File(0), File(3), File(1), File(1), File(2), File(2), File(2), Free, Free, Free, Free];
  }

  /** `checksum`: `None` when a checked multiplication or addition overflows a u64. */
  method Checksum(disk: Disk) returns (r: Option<nat>)
    ensures r.Some? <==> ChecksumSum(disk.blocks) <= U64_MAX
    ensures r.Some? ==> r.value == ChecksumSum(disk.blocks)
  {
    var blocks := disk.blocks;
    var result: nat := 0;
    for i := 0 to |blocks|
      invariant result == ChecksumSum(blocks[..i]) && result <= U64_MAX
    {
      TakeTake(blocks, i);
      ChecksumMonotone(blocks, i + 1);
      match blocks[i]
      case File(id) =>
        var mul := id * i;
        if mul > U64_MAX || result + mul > U64_MAX {
          return None;
        }
        result := result + mul;
      case Free =>
    }
    assert blocks[..|blocks|] == blocks;
    r := Some(result);
  }

  /** `build_hash`: the number of occurrences of each block of the disk. */
  method BuildHash(disk: Disk) returns (result: map<Block, nat>)
    ensures forall b :: b in result <==> b in disk.blocks
    ensures forall b :: b in result ==> result[b] == multiset(disk.blocks)[b]
  {
    var blocks := disk.blocks;
    result := map[];
    for i := 0 to |blocks|
      invariant forall b :: b in result <==> b in blocks[..i]
      invariant forall b :: b in result ==> result[b] == multiset(blocks[..i])[b]
    {
      var block := blocks[i];
      TakeTake(blocks, i);
      if block in result {
        result := result[block := result[block] + 1];
      } else {
        result := result[block := 1];
      }
    }
    assert blocks[..|blocks|] == blocks;
  }

  /** The count table of a disk, as `build_hash` leaves it. */
  ghost function Counts(blocks: seq<Block>): (m: map<Block, nat>)
    ensures forall b :: b in m <==> b in blocks
    ensures forall b :: b in m ==> m[b] == multiset(blocks)[b]
  {
    map b | b in multiset(blocks) :: multiset(blocks)[b]
  }

  /**
   * `consistency_check`: `Some(false)` on disks of different sizes; `None`
   * when the `assert_eq!` on the numbers of distinct blocks fails; otherwise
   * whether every block of the first disk occurs as often in the second.
   */
  ghost function ConsistencyCheck(disk1: Disk, disk2: Disk): Option<bool>
  {
    if |disk1.blocks| != |disk2.blocks| then Some(false)
    else
      var hash1 := Counts(disk1.blocks);
      var hash2 := Counts(disk2.blocks);
      if |hash1| != |hash2| then None
      else Some(forall b :: b in hash1 ==> b in hash2 && hash1[b] == hash2[b])
  }

  /** Equal multisets have the same distinct blocks. */
  lemma SameKeys(m1: map<Block, nat>, m2: map<Block, nat>)
    requires forall b :: b in m1 <==> b in m2
    ensures |m1| == |m2|
  {
    assert m1.Keys == m2.Keys;
  }

  /** One multiset inside another of the same size is that multiset. */
  lemma SubMultisetEqual(a: multiset<Block>, b: multiset<Block>)
    requires a <= b && |a| == |b|
    ensures a == b
  {
    var d := b - a;
    assert |b| == |a| + |d| by { assert b == a + d; }
    assert d == multiset{};
    assert b == a + d;
  }

  /** The check passes exactly on disks that hold the same blocks, and never panics on those. */
  lemma ConsistencyCheckCorrect(disk1: Disk, disk2: Disk)
    ensures ConsistencyCheck(disk1, disk2) == Some(true) <==> multiset(disk1.blocks) == multiset(disk2.blocks)
    ensures multiset(disk1.blocks) == multiset(disk2.blocks) ==> ConsistencyCheck(disk1, disk2).Some?
  {
    var b1, b2 := disk1.blocks, disk2.blocks;
    var m1, m2 := multiset(b1), multiset(b2);
    if m1 == m2 {
      assert |b1| == |m1| && |b2| == |m2|;
      SameKeys(Counts(b1), Counts(b2));
    }
    if ConsistencyCheck(disk1, disk2) == Some(true) {
      var hash1, hash2 := Counts(b1), Counts(b2);
      assert m1 <= m2 by {
        forall b | b in m1 ensures m1[b] <= m2[b] {
          assert b in hash1;
        }
      }
      assert |m1| == |b1| == |b2| == |m2|;
      SubMultisetEqual(m1, m2);
    }
  }

  /** The disk map of the input, compacted: what part one sums. */
  function OptimizedDisk(input: string): Option<seq<Block>>
    requires AllDigits(Trim(input))
  {
    Optimized(ExpandFrom(Trim(input), 0, 0))
  }

  /**
   * `part_one`: the checksum of the compacted disk. The consistency
   * assertion between the two disks always holds; `None` stands for the
   * panics of `optimize` and of `checksum`.
   */
  method PartOne(input: string) returns (r: Option<nat>)
    requires AllDigits(Trim(input))
    ensures r.Some? <==> OptimizedDisk(input).Some? && ChecksumSum(OptimizedDisk(input).value) <= U64_MAX
    ensures r.Some? ==> r.value == ChecksumSum(OptimizedDisk(input).value)
  {
    var origDisk := NewDisk(input);
    var optimized := Optimize(origDisk);
    if optimized.None? {
      return None;
    }
    OptimizedPreserves(origDisk.blocks);
    ConsistencyCheckCorrect(origDisk, optimized.value);
    r := Checksum(optimized.value);
  }
}
