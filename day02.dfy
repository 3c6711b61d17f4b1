/**
 * Day 2: reports of levels. A report is safe when its levels move steadily
 * in one direction by 1 to 3 per step; the tolerant check also accepts a
 * report that becomes safe once one level is removed.
 */
module Day02 {
  import opened Wrappers
  import opened Text

  const I64_MIN: int := -0x8000_0000_0000_0000
  const I64_MAX: int := 0x7fff_ffff_ffff_ffff

  /** The largest step between two levels that is not a defect (`Report::THRESHOLD`). */
  const THRESHOLD: nat := 3

  predicate IsI64(v: int) { I64_MIN <= v <= I64_MAX }

  /** `i64::saturating_sub`. */
  function SaturatingSub(a: int, b: int): (d: int)
    ensures IsI64(d)
    ensures IsI64(a - b) ==> d == a - b
    ensures a - b < I64_MIN ==> d == I64_MIN
    ensures a - b > I64_MAX ==> d == I64_MAX
  {
    if a - b < I64_MIN then I64_MIN else if a - b > I64_MAX then I64_MAX else a - b
  }

  datatype Direction = Increasing(step: nat) | Decreasing(step: nat) | Flat

  /** `compute_direction`: the sign of a difference and its magnitude. */
  function ComputeDirection(difference: int): (d: Direction)
    ensures d == Flat <==> difference == 0
    ensures d.Increasing? <==> difference > 0
    ensures d.Decreasing? <==> difference < 0
    ensures !d.Flat? ==> d.step == if difference < 0 then -difference else difference
  {
    if difference == 0 then Flat
    else if difference < 0 then Decreasing(-difference)
    else Increasing(difference)
  }

  /** The change from level i to level i + 1. */
  function Step(values: seq<int>, i: nat): int
    requires i + 1 < |values|
  {
    values[i + 1] - values[i]
  }

  /** The direction of each step from a level to the next, with the saturated difference. */
  function Directions(values: seq<int>): (ds: seq<Direction>)
    ensures |ds| == if |values| == 0 then 0 else |values| - 1
    ensures forall i :: 0 <= i < |ds| ==> ds[i] == ComputeDirection(SaturatingSub(values[i + 1], values[i]))
  {
    if |values| <= 1 then []
    else Directions(values[..|values| - 1]) + [ComputeDirection(SaturatingSub(values[|values| - 1], values[|values| - 2]))]
  }

  predicate IsBadStep(d: Direction)
  {
    d.Flat? || d.step > THRESHOLD
  }

  function CountBad(ds: seq<Direction>): nat
  {
    if ds == [] then 0 else CountBad(ds[..|ds| - 1]) + (if IsBadStep(ds[|ds| - 1]) then 1 else 0)
  }

  function CountIncreasing(ds: seq<Direction>): nat
  {
    if ds == [] then 0
    else CountIncreasing(ds[..|ds| - 1]) + (if ds[|ds| - 1].Increasing? && !IsBadStep(ds[|ds| - 1]) then 1 else 0)
  }

  function CountDecreasing(ds: seq<Direction>): nat
  {
    if ds == [] then 0
    else CountDecreasing(ds[..|ds| - 1]) + (if ds[|ds| - 1].Decreasing? && !IsBadStep(ds[|ds| - 1]) then 1 else 0)
  }

  /** The defects among some steps: flat or too large steps, plus the steps against the majority direction. */
  function Tally(ds: seq<Direction>): nat
  {
    var increasing, decreasing := CountIncreasing(ds), CountDecreasing(ds);
    CountBad(ds) + if increasing > decreasing then decreasing else increasing
  }

  /** The defects of a report's levels. */
  function DefectCount(values: seq<int>): nat
  {
    Tally(Directions(values))
  }

  /** `compute_defects`: collect the directions, then count them. */
  method ComputeDefects(values: seq<int>) returns (numDefects: nat)
    ensures numDefects == DefectCount(values)
  {
    var directions := CollectDirections(values);
    numDefects := TallyDefects(directions);
  }

  /** The first loop of `compute_defects`: the direction of every step. */
  method CollectDirections(values: seq<int>) returns (directions: seq<Direction>)
    ensures directions == Directions(values)
  {
    directions := [];
    if |values| > 0 {
      for i := 1 to |values|
        invariant directions == Directions(values[..i])
      {
        TakeTake(values, i);
        directions := directions + [ComputeDirection(SaturatingSub(values[i], values[i - 1]))];
      }
      assert values[..|values|] == values;
    }
  }

  /** The second loop of `compute_defects` and its final adjustment. */
  method TallyDefects(directions: seq<Direction>) returns (numDefects: nat)
    ensures numDefects == Tally(directions)
  {
    numDefects := 0;
    var numIncreasing, numDecreasing := 0, 0;
    for k := 0 to |directions|
      invariant numDefects == CountBad(directions[..k])
      invariant numIncreasing == CountIncreasing(directions[..k])
      invariant numDecreasing == CountDecreasing(directions[..k])
    {
      TakeTake(directions, k);
      match directions[k]
      case Flat => numDefects := numDefects + 1;
      case Increasing(val) =>
        if val > THRESHOLD {
          numDefects := numDefects + 1;
        } else {
          numIncreasing := numIncreasing + 1;
        }
      case Decreasing(val) =>
        if val > THRESHOLD {
          numDefects := numDefects + 1;
        } else {
          numDecreasing := numDecreasing + 1;
        }
    }
    assert directions[..|directions|] == directions;
    if numIncreasing > numDecreasing {
      numDefects := numDefects + numDecreasing;
    } else {
      numDefects := numDefects + numIncreasing;
    }
  }

  /** Every step goes up by 1 to 3. */
  predicate AllIncreasing(values: seq<int>)
  {
    forall i :: 0 <= i < |values| - 1 ==> 1 <= Step(values, i) <= THRESHOLD
  }

  /** Every step goes down by 1 to 3. */
  predicate AllDecreasing(values: seq<int>)
  {
    forall i :: 0 <= i < |values| - 1 ==> 1 <= -Step(values, i) <= THRESHOLD
  }

  /** A saturated difference is a good step of one kind exactly when the real difference is. */
  lemma SaturatingStep(a: int, b: int)
    ensures var d := ComputeDirection(SaturatingSub(a, b));
      (d.Increasing? && !IsBadStep(d) <==> 1 <= a - b <= THRESHOLD)
      && (d.Decreasing? && !IsBadStep(d) <==> 1 <= b - a <= THRESHOLD)
  {
  }

  lemma {:induction false} CountsZero(ds: seq<Direction>)
    ensures CountBad(ds) == 0 && CountDecreasing(ds) == 0 <==> GoodIncreasing(ds)
    ensures CountBad(ds) == 0 && CountIncreasing(ds) == 0 <==> GoodDecreasing(ds)
    decreases |ds|
  {
    if ds != [] {
      var front := ds[..|ds| - 1];
      CountsZero(front);
      assert forall i :: 0 <= i < |front| ==> front[i] == ds[i];
    }
  }

  /** Every step is an increase by 1 to 3. */
  predicate GoodIncreasing(ds: seq<Direction>)
  {
    forall i :: 0 <= i < |ds| ==> ds[i].Increasing? && !IsBadStep(ds[i])
  }

  /** Every step is a decrease by 1 to 3. */
  predicate GoodDecreasing(ds: seq<Direction>)
  {
    forall i :: 0 <= i < |ds| ==> ds[i].Decreasing? && !IsBadStep(ds[i])
  }

  /** Every step of the levels is a good increasing step exactly when the levels rise steadily. */
  lemma IncreasingSteps(values: seq<int>)
    ensures AllIncreasing(values) <==> GoodIncreasing(Directions(values))
  {
    var ds := Directions(values);
    forall i | 0 <= i < |ds|
      ensures (ds[i].Increasing? && !IsBadStep(ds[i])) <==> 1 <= Step(values, i) <= THRESHOLD
    {
      SaturatingStep(values[i + 1], values[i]);
    }
    if AllIncreasing(values) {
      forall i | 0 <= i < |ds| ensures ds[i].Increasing? && !IsBadStep(ds[i]) {
        assert 1 <= Step(values, i) <= THRESHOLD;
      }
    } else {
      var i :| 0 <= i < |values| - 1 && !(1 <= Step(values, i) <= THRESHOLD);
      assert !(ds[i].Increasing? && !IsBadStep(ds[i]));
    }
  }

  /** Every step of the levels is a good decreasing step exactly when the levels fall steadily. */
  lemma DecreasingSteps(values: seq<int>)
    ensures AllDecreasing(values) <==> GoodDecreasing(Directions(values))
  {
    var ds := Directions(values);
    forall i | 0 <= i < |ds|
      ensures (ds[i].Decreasing? && !IsBadStep(ds[i])) <==> 1 <= -Step(values, i) <= THRESHOLD
    {
      SaturatingStep(values[i + 1], values[i]);
    }
    if AllDecreasing(values) {
      forall i | 0 <= i < |ds| ensures ds[i].Decreasing? && !IsBadStep(ds[i]) {
        assert 1 <= -Step(values, i) <= THRESHOLD;
      }
    } else {
      var i :| 0 <= i < |values| - 1 && !(1 <= -Step(values, i) <= THRESHOLD);
      assert !(ds[i].Decreasing? && !IsBadStep(ds[i]));
    }
  }

  /** A report has no defects exactly when it rises steadily or falls steadily; short reports have none. */
  lemma DefectsZero(values: seq<int>)
    ensures DefectCount(values) == 0 <==> AllIncreasing(values) || AllDecreasing(values)
    ensures |values| <= 1 ==> DefectCount(values) == 0
  {
    CountsZero(Directions(values));
    IncreasingSteps(values);
    DecreasingSteps(values);
  }

  /** A report: its levels and its defect count, computed once when it is read. */
  datatype Report = Report(values: seq<int>, defects: nat)

  /** A report line: whitespace-separated signed numerals that fit in an `i64`. */
  predicate WellFormedLine(line: string)
  {
    var words := SplitWhitespace(line);
    forall k :: 0 <= k < |words| ==> IsIntNumeral(words[k]) && IsI64(ParseInt(words[k]))
  }

  function Levels(words: seq<string>): (values: seq<int>)
    requires forall k :: 0 <= k < |words| ==> IsIntNumeral(words[k])
    ensures |values| == |words|
    ensures forall k :: 0 <= k < |words| ==> values[k] == ParseInt(words[k])
  {
    if words == [] then [] else Levels(words[..|words| - 1]) + [ParseInt(words[|words| - 1])]
  }

  /** The levels of a report line. */
  function LineLevels(line: string): seq<int>
    requires WellFormedLine(line)
  {
    Levels(SplitWhitespace(line))
  }

  /** `Report::new`: parse the levels and count their defects. */
  method NewReport(data: string) returns (r: Report)
    requires WellFormedLine(data)
    ensures r.values == LineLevels(data)
    ensures r.defects == DefectCount(r.values)
  {
    var values := LineLevels(data);
    var defects := ComputeDefects(values);
    r := Report(values, defects);
  }

  /** The levels without the one at index i (`Vec::remove`). */
  function Remove(values: seq<int>, i: nat): (r: seq<int>)
    requires i < |values|
    ensures |r| == |values| - 1
  {
    values[..i] + values[i + 1..]
  }

  /** Safe with the problem dampener: no defects, or none once some single level is removed. */
  predicate Tolerable(values: seq<int>)
  {
    DefectCount(values) == 0 || exists i :: 0 <= i < |values| && DefectCount(Remove(values, i)) == 0
  }

  /** `is_strictly_safe`. */
  function IsStrictlySafe(r: Report): (safe: bool)
  {
    r.defects == 0
  }

  /** `is_safe`: strictly safe, or strictly safe after removing the first level that makes it so. */
  method IsSafe(r: Report) returns (safe: bool)
    requires r.defects == DefectCount(r.values)
    ensures safe <==> Tolerable(r.values)
  {
    if r.defects == 0 {
      return true;
    }
    for i := 0 to |r.values|
      invariant forall j :: 0 <= j < i ==> DefectCount(Remove(r.values, j)) != 0
    {
      var copy := Remove(r.values, i);
      var defects := ComputeDefects(copy);
      if defects == 0 {
        assert DefectCount(Remove(r.values, i)) == 0;
        return true;
      }
    }
    assert !Tolerable(r.values);
    return false;
  }

  /** A strictly safe report is safe. */
  lemma StrictlySafeIsTolerable(r: Report)
    requires r.defects == DefectCount(r.values) && IsStrictlySafe(r)
    ensures Tolerable(r.values)
  {
  }

  /** Any report of at most two levels is safe: removing one leaves at most one level. */
  lemma ShortReportTolerable(values: seq<int>)
    requires 0 < |values| <= 2
    ensures Tolerable(values)
  {
    DefectsZero(Remove(values, 0));
  }

  /** A safe report keeps its levels moving one way, except possibly at one removed level. */
  lemma TolerableMeaning(values: seq<int>)
    ensures Tolerable(values) <==>
      (AllIncreasing(values) || AllDecreasing(values)
       || exists i :: 0 <= i < |values| && (AllIncreasing(Remove(values, i)) || AllDecreasing(Remove(values, i))))
  {
    DefectsZero(values);
    forall i | 0 <= i < |values| {
      DefectsZero(Remove(values, i));
    }
  }

  function InputLines(input: string): seq<string>
  {
    SplitTerminator(input, '\n')
  }

  predicate WellFormed(input: string)
  {
    forall i :: 0 <= i < |InputLines(input)| ==> WellFormedLine(InputLines(input)[i])
  }

  /** The levels of every line. */
  function AllLevels(lines: seq<string>): (levels: seq<seq<int>>)
    requires forall i :: 0 <= i < |lines| ==> WellFormedLine(lines[i])
    ensures |levels| == |lines|
    ensures forall i :: 0 <= i < |lines| ==> levels[i] == LineLevels(lines[i])
  {
    if lines == [] then [] else AllLevels(lines[..|lines| - 1]) + [LineLevels(lines[|lines| - 1])]
  }

  /** The number of reports without defects. */
  function CountStrictlySafe(levels: seq<seq<int>>): nat
  {
    if levels == [] then 0
    else CountStrictlySafe(levels[..|levels| - 1]) + (if DefectCount(levels[|levels| - 1]) == 0 then 1 else 0)
  }

  /** The number of reports that are safe with one level removed at most. */
  function CountTolerable(levels: seq<seq<int>>): nat
  {
    if levels == [] then 0
    else CountTolerable(levels[..|levels| - 1]) + (if Tolerable(levels[|levels| - 1]) then 1 else 0)
  }

  /** Reports whose stored defect counts are those of their levels. */
  predicate Consistent(reports: seq<Report>)
  {
    forall i :: 0 <= i < |reports| ==> reports[i].defects == DefectCount(reports[i].values)
  }

  /** The levels of every report. */
  function Values(reports: seq<Report>): (levels: seq<seq<int>>)
    ensures |levels| == |reports|
    ensures forall i :: 0 <= i < |reports| ==> levels[i] == reports[i].values
  {
    if reports == [] then [] else Values(reports[..|reports| - 1]) + [reports[|reports| - 1].values]
  }

  /** `load_data`: one report per line. */
  method LoadData(input: string) returns (reports: seq<Report>)
    requires WellFormed(input)
    ensures Consistent(reports) && Values(reports) == AllLevels(InputLines(input))
  {
    reports := LoadReports(InputLines(input));
  }

  /** The `map` of `load_data`: `Report::new` on every line. */
  method LoadReports(lines: seq<string>) returns (reports: seq<Report>)
    requires forall i :: 0 <= i < |lines| ==> WellFormedLine(lines[i])
    ensures Consistent(reports) && Values(reports) == AllLevels(lines)
  {
    reports := [];
    for i := 0 to |lines|
      invariant |reports| == i
      invariant Consistent(reports) && Values(reports) == AllLevels(lines[..i])
    {
      var report := NewReport(lines[i]);
      AppendReport(reports, report, lines, i);
      reports := reports + [report];
    }
    assert lines[..|lines|] == lines;
  }

  lemma AppendReport(reports: seq<Report>, report: Report, lines: seq<string>, i: nat)
    requires i < |lines| && forall j :: 0 <= j < |lines| ==> WellFormedLine(lines[j])
    requires Consistent(reports) && Values(reports) == AllLevels(lines[..i])
    requires report.values == LineLevels(lines[i]) && report.defects == DefectCount(report.values)
    ensures Consistent(reports + [report]) && Values(reports + [report]) == AllLevels(lines[..i + 1])
  {
    TakeTake(lines, i);
    assert (reports + [report])[..|reports|] == reports;
  }

  /** `part_one`: the number of strictly safe reports. */
  method PartOne(input: string) returns (r: Option<nat>)
    requires WellFormed(input)
    ensures r == Some(CountStrictlySafe(AllLevels(InputLines(input))))
  {
    var reports := LoadData(input);
    var count := CountStrictlySafeReports(reports);
    r := Some(count);
  }

  /** The filter and count of `part_one`. */
  method CountStrictlySafeReports(reports: seq<Report>) returns (count: nat)
    requires Consistent(reports)
    ensures count == CountStrictlySafe(Values(reports))
  {
    count := 0;
    for i := 0 to |reports|
      invariant count == CountStrictlySafe(Values(reports[..i]))
    {
      TakeTake(reports, i);
      if IsStrictlySafe(reports[i]) {
        count := count + 1;
      }
    }
    assert reports[..|reports|] == reports;
  }

  /** `part_two`: the number of reports that are safe with the problem dampener. */
  method PartTwo(input: string) returns (r: Option<nat>)
    requires WellFormed(input)
    ensures r == Some(CountTolerable(AllLevels(InputLines(input))))
  {
    var reports := LoadData(input);
    var count := CountSafeReports(reports);
    r := Some(count);
  }

  /** The filter and count of `part_two`. */
  method CountSafeReports(reports: seq<Report>) returns (count: nat)
    requires Consistent(reports)
    ensures count == CountTolerable(Values(reports))
  {
    count := 0;
    for i := 0 to |reports|
      invariant count == CountTolerable(Values(reports[..i]))
    {
      TakeTake(reports, i);
      var safe := IsSafe(reports[i]);
      if safe {
        count := count + 1;
      }
    }
    assert reports[..|reports|] == reports;
  }

  /** Every report counted by part one is counted by part two. */
  lemma {:induction false} StrictlySafeCountAtMost(levels: seq<seq<int>>)
    ensures CountStrictlySafe(levels) <= CountTolerable(levels)
    decreases |levels|
  {
    if levels != [] {
      StrictlySafeCountAtMost(levels[..|levels| - 1]);
    }
  }
}
