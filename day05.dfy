/**
 * Day 5: a safety manual of page-ordering rules and of updates. A rule
 * `a|b` says that page `a` must be printed before page `b`; an update is the
 * list of pages it prints, in order. Part one adds up the middle page of
 * every update that `is_valid` accepts.
 */
module Day05 {
  import opened Wrappers
  import opened Text

  /** `pre|post`: page `pre` must come before page `post`. */
  datatype Rule = Rule(pre: nat, post: nat)

  datatype Update = Update(pages: seq<nat>)

  datatype SafetyManual = SafetyManual(rules: seq<Rule>, updates: seq<Update>)

  // ---------------------------------------------------------------------------
  // The middle page
  // ---------------------------------------------------------------------------

  /** `mid`: the page in the middle; an empty update is indexed out of bounds. */
  function Mid(u: Update): (page: nat)
    requires |u.pages| > 0
    ensures page in u.pages
  {
    u.pages[|u.pages| / 2]
  }

  /** The middle page of an update of odd length has as many pages before it as after it. */
  lemma MidIsCentred(u: Update)
    requires |u.pages| % 2 == 1
    ensures exists k :: 0 <= k < |u.pages| && u.pages[k] == Mid(u) && |u.pages[..k]| == |u.pages[k + 1..]|
  {
    var k := |u.pages| / 2;
    assert |u.pages[..k]| == |u.pages[k + 1..]|;
  }

  // ---------------------------------------------------------------------------
  // Checking an update against the rules
  // ---------------------------------------------------------------------------

  /** The rules demand that page `a` be printed before page `b`. */
  predicate Precedes(rules: seq<Rule>, a: nat, b: nat)
  {
    Rule(a, b) in rules
  }

  /**
   * The loop over the rules in `is_valid`: some rule demands that a page of
   * `rest` come before `page`.
   */
  function Blocks(rules: seq<Rule>, page: nat, rest: seq<nat>): (b: bool)
    ensures b <==> exists j :: 0 <= j < |rest| && Precedes(rules, rest[j], page)
  {
    if |rules| == 0 then false
    else if rules[0].post == page && rules[0].pre in rest then true
    else
      var b := Blocks(rules[1..], page, rest);
      assert forall q :: Rule(q, page) in rules ==> Rule(q, page) == rules[0] || Rule(q, page) in rules[1..];
      b
  }

  /**
   * `is_valid(page, updates)`: true on no pages; false when a rule demands a
   * page after the first before `page`; otherwise the recursion goes on with
   * the first page and the rest.
   */
  function IsValid(rules: seq<Rule>, page: nat, updates: seq<nat>): bool
    decreases |updates|
  {
    if |updates| == 0 then true
    else if Blocks(rules, page, updates[1..]) then false
    else IsValid(rules, updates[0], updates[1..])
  }

  /**
   * What `is_valid(page, u)` checks: `page` against every page after the
   * first, and each page `u[i]` against the pages from `u[i + 2]` on. The
   * page right after `u[i]` is never checked against it.
   */
  lemma {:induction false} IsValidChecks(rules: seq<Rule>, page: nat, u: seq<nat>)
    ensures IsValid(rules, page, u) <==>
      (forall j :: 1 <= j < |u| ==> !Precedes(rules, u[j], page))
      && (forall i, j :: 0 <= i && i + 2 <= j < |u| ==> !Precedes(rules, u[j], u[i]))
    decreases |u|
  {
    if |u| > 0 {
      var rest := u[1..];
      IsValidChecks(rules, u[0], rest);
      assert forall j :: 1 <= j < |u| ==> u[j] == rest[j - 1];
      assert forall j :: 0 <= j < |rest| ==> rest[j] == u[j + 1];
      if IsValid(rules, page, u) {
        forall i, j | 0 <= i && i + 2 <= j < |u|
          ensures !Precedes(rules, u[j], u[i])
        {
          if i == 0 {
            assert u[j] == rest[j - 1];
          } else {
            assert u[i] == rest[i - 1] && u[j] == rest[j - 1];
          }
        }
      }
    }
  }

  /** The check `valid_updates` applies: `is_valid` from the first page. */
  predicate ValidUpdate(rules: seq<Rule>, pages: seq<nat>)
    requires |pages| > 0
  {
    IsValid(rules, pages[0], pages)
  }

  /** Every page comes before every later page as far as the rules are concerned. */
  predicate Ordered(rules: seq<Rule>, pages: seq<nat>)
  {
    forall i, j :: 0 <= i < j < |pages| ==> !Precedes(rules, pages[j], pages[i])
  }

  /**
   * The pairs `valid_updates` checks: the first page against every later
   * one, and every other page against those at least two places after it.
   */
  lemma ValidUpdateChecks(rules: seq<Rule>, pages: seq<nat>)
    requires |pages| > 0
    ensures ValidUpdate(rules, pages) <==>
      forall i, j :: 0 <= i < j < |pages| && (i == 0 || i + 2 <= j) ==> !Precedes(rules, pages[j], pages[i])
  {
    IsValidChecks(rules, pages[0], pages);
  }

  /** An update in the rules' order is accepted. */
  lemma OrderedIsValid(rules: seq<Rule>, pages: seq<nat>)
    requires |pages| > 0 && Ordered(rules, pages)
    ensures ValidUpdate(rules, pages)
  {
    ValidUpdateChecks(rules, pages);
  }

  /** Up to two pages every pair is checked, so acceptance is exactly being in order. */
  lemma ShortUpdates(rules: seq<Rule>, pages: seq<nat>)
    requires 0 < |pages| <= 2
    ensures ValidUpdate(rules, pages) <==> Ordered(rules, pages)
  {
    ValidUpdateChecks(rules, pages);
  }

  /**
   * With the rule `2|1`, the update `3,1,2` prints 1 before 2 and is still
   * accepted: 1 and 2 are neighbours after the first page.
   */
  lemma NeighboursUnchecked()
    ensures ValidUpdate([Rule(2, 1)], [3, 1, 2])
    ensures !Ordered([Rule(2, 1)], [3, 1, 2])
  {
    var pages: seq<nat> := [3, 1, 2];
    ValidUpdateChecks([Rule(2, 1)], pages);
    assert Precedes([Rule(2, 1)], pages[2], pages[1]);
  }

  /**
   * `is_valid` with the recursion it evidently intends: go on with the
   * second page as the one to check against the pages after it.
   */
  function IsValidFixed(rules: seq<Rule>, page: nat, updates: seq<nat>): bool
    decreases |updates|
  {
    if |updates| == 0 then true
    else if Blocks(rules, page, updates[1..]) then false
    else if |updates| == 1 then true
    else IsValidFixed(rules, updates[1], updates[1..])
  }

  /** The corrected check accepts exactly the updates in the rules' order. */
  lemma {:induction false} IsValidFixedOrdered(rules: seq<Rule>, pages: seq<nat>)
    requires |pages| > 0
    ensures IsValidFixed(rules, pages[0], pages) <==> Ordered(rules, pages)
    decreases |pages|
  {
    var rest := pages[1..];
    assert forall j :: 0 <= j < |rest| ==> rest[j] == pages[j + 1];
    if |pages| > 1 {
      IsValidFixedOrdered(rules, rest);
      if IsValidFixed(rules, pages[0], pages) {
        forall i, j | 0 <= i < j < |pages|
          ensures !Precedes(rules, pages[j], pages[i])
        {
          if i == 0 {
            assert pages[j] == rest[j - 1];
          } else {
            assert pages[i] == rest[i - 1] && pages[j] == rest[j - 1];
          }
        }
      }
      if Ordered(rules, pages) {
        assert Ordered(rules, rest);
      }
    }
  }

  // ---------------------------------------------------------------------------
  // The valid updates and part one
  // ---------------------------------------------------------------------------

  /** No update is empty: `valid_updates` unwraps each update's first page. */
  predicate NonEmpty(updates: seq<Update>)
  {
    forall k :: 0 <= k < |updates| ==> |updates[k].pages| > 0
  }

  /** The updates that `is_valid` accepts, in their order. */
  function Accepted(rules: seq<Rule>, updates: seq<Update>): (r: seq<Update>)
    requires NonEmpty(updates)
    ensures |r| <= |updates| && NonEmpty(r)
  {
    if |updates| == 0 then []
    else
      var last := updates[|updates| - 1];
      Accepted(rules, updates[..|updates| - 1]) + if ValidUpdate(rules, last.pages) then [last] else []
  }

  /** An update is kept exactly when it is one of the updates and is accepted. */
  lemma {:induction false} AcceptedHas(rules: seq<Rule>, updates: seq<Update>, u: Update)
    requires NonEmpty(updates)
    ensures u in Accepted(rules, updates) <==> u in updates && ValidUpdate(rules, u.pages)
  {
    if |updates| > 0 {
      var init := updates[..|updates| - 1];
      AcceptedHas(rules, init, u);
      assert updates == init + [updates[|updates| - 1]];
    }
  }

  /** When the rules accept every update, all of them are kept, in order. */
  lemma {:induction false} AcceptedAll(rules: seq<Rule>, updates: seq<Update>)
    requires NonEmpty(updates)
    requires forall k :: 0 <= k < |updates| ==> ValidUpdate(rules, updates[k].pages)
    ensures Accepted(rules, updates) == updates
  {
    if |updates| > 0 {
      var init := updates[..|updates| - 1];
      AcceptedAll(rules, init);
      assert updates == init + [updates[|updates| - 1]];
    }
  }

  /** `valid_updates`: push each update that `is_valid` accepts from its first page. */
  method ValidUpdates(manual: SafetyManual) returns (results: seq<Update>)
    requires NonEmpty(manual.updates)
    ensures results == Accepted(manual.rules, manual.updates)
  {
    results := [];
    for k := 0 to |manual.updates|
      invariant results == Accepted(manual.rules, manual.updates[..k])
    {
      var update := manual.updates[k];
      assert manual.updates[..k + 1][..k] == manual.updates[..k];
      if IsValid(manual.rules, update.pages[0], update.pages) {
        results := results + [update];
      }
    }
    assert manual.updates[..|manual.updates|] == manual.updates;
  }

  /** The sum of the middle pages. */
  function SumMids(updates: seq<Update>): nat
    requires NonEmpty(updates)
  {
    if |updates| == 0 then 0 else SumMids(updates[..|updates| - 1]) + Mid(updates[|updates| - 1])
  }

  /** Leaving updates out does not raise the sum; keeping all of them keeps it. */
  lemma {:induction false} AcceptedSum(rules: seq<Rule>, updates: seq<Update>)
    requires NonEmpty(updates)
    ensures SumMids(Accepted(rules, updates)) <= SumMids(updates)
  {
    if |updates| > 0 {
      var init := updates[..|updates| - 1];
      var last := updates[|updates| - 1];
      AcceptedSum(rules, init);
      var kept := Accepted(rules, init);
      if ValidUpdate(rules, last.pages) {
        assert (kept + [last])[..|kept|] == kept;
      } else {
        assert kept + [] == kept;
      }
    }
  }

  /** The sum over the kept updates, as `part_one` adds it up. */
  method SumMiddlePages(updates: seq<Update>) returns (count: nat)
    requires NonEmpty(updates)
    ensures count == SumMids(updates)
  {
    count := 0;
    for k := 0 to |updates|
      invariant count == SumMids(updates[..k])
    {
      assert updates[..k + 1][..k] == updates[..k];
      count := count + Mid(updates[k]);
    }
    assert updates[..|updates|] == updates;
  }

  // ---------------------------------------------------------------------------
  // Reading the manual
  // ---------------------------------------------------------------------------

  /** `parse::<u64>()` on one piece, `None` where the source's `expect` panics. */
  function ParseNumber(s: string): (r: Option<nat>)
    ensures r.Some? <==> IsNumeral(s)
    ensures r.Some? ==> r.value == ParseNat(s)
  {
    if IsNumeral(s) then Some(ParseNat(s)) else None
  }

  /**
   * `parse_rule_line`: the numbers before the first `|` and between it and
   * the next; anything after a second `|` is ignored. `None` where the source
   * panics.
   */
  function ParseRuleLine(line: string): Option<Rule>
  {
    var numbers := Split(line, '|');
    if |numbers| >= 2 && IsNumeral(numbers[0]) && IsNumeral(numbers[1])
    then Some(Rule(ParseNat(numbers[0]), ParseNat(numbers[1])))
    else None
  }

  /**
   * `parse_update_line`: the comma-separated numbers, which must be an odd
   * count (the source asserts it). `None` where the source panics.
   */
  function ParseUpdateLine(line: string): Option<Update>
  {
    var pages := Traverse(ParseNumber, Split(line, ','));
    if pages.Some? && |pages.value| % 2 == 1 then Some(Update(pages.value)) else None
  }

  /** The lines that contain `c`, in order: the `filter` of `load_data`. */
  function Keep(lines: seq<string>, c: char): (r: seq<string>)
    ensures forall k :: 0 <= k < |r| ==> c in r[k]
  {
    if |lines| == 0 then [] else (if c in lines[0] then [lines[0]] else []) + Keep(lines[1..], c)
  }

  /** The pages that occur in some rule, either side: the set `check_rules_and_updates` builds. */
  function RulePages(rules: seq<Rule>): (s: set<nat>)
    ensures forall p :: p in s <==> exists i :: 0 <= i < |rules| && (rules[i].pre == p || rules[i].post == p)
  {
    if |rules| == 0 then {}
    else
      var init := rules[..|rules| - 1];
      var s := RulePages(init) + {rules[|rules| - 1].pre} + {rules[|rules| - 1].post};
      assert forall i :: 0 <= i < |init| ==> init[i] == rules[i];
      s
  }

  /** Every page of every update occurs in some rule. */
  predicate Covered(rules: seq<Rule>, updates: seq<Update>)
  {
    forall k, j :: 0 <= k < |updates| && 0 <= j < |updates[k].pages| ==> updates[k].pages[j] in RulePages(rules)
  }

  /**
   * `check_rules_and_updates`: collect the pages of the rules, then check
   * each page of each update; the source panics on the first page missing
   * from the rules, and `ok` is false exactly then.
   */
  method CheckRulesAndUpdates(rules: seq<Rule>, updates: seq<Update>) returns (ok: bool)
    ensures ok <==> Covered(rules, updates)
  {
    var pages: set<nat> := {};
    for i := 0 to |rules|
      invariant pages == RulePages(rules[..i])
    {
      assert rules[..i + 1][..i] == rules[..i];
      pages := pages + {rules[i].pre};
      pages := pages + {rules[i].post};
    }
    assert rules[..|rules|] == rules;
    for k := 0 to |updates|
      invariant forall k', j :: 0 <= k' < k && 0 <= j < |updates[k'].pages| ==> updates[k'].pages[j] in pages
    {
      for j := 0 to |updates[k].pages|
        invariant forall j' :: 0 <= j' < j ==> updates[k].pages[j'] in pages
      {
        if updates[k].pages[j] !in pages {
          return false;
        }
      }
    }
    return true;
  }

  /** The manual `load_data` reads, or `None` where it panics. */
  function ManualOf(input: string): (r: Option<SafetyManual>)
    ensures r.Some? ==> NonEmpty(r.value.updates) && Covered(r.value.rules, r.value.updates)
  {
    var lines := Lines(input);
    var rules := Traverse(ParseRuleLine, Keep(lines, '|'));
    var updates := Traverse(ParseUpdateLine, Keep(lines, ','));
    if rules.Some? && updates.Some? && Covered(rules.value, updates.value)
    then Some(SafetyManual(rules.value, updates.value))
    else None
  }

  /**
   * `load_data`: the lines with a `|` are the rules and those with a `,`
   * the updates, both in order; then the pages are checked against the rules.
   */
  method LoadData(input: string) returns (r: Option<SafetyManual>)
    ensures r == ManualOf(input)
  {
    var lines := Lines(input);
    var rules := Traverse(ParseRuleLine, Keep(lines, '|'));
    var updates := Traverse(ParseUpdateLine, Keep(lines, ','));
    if rules.None? || updates.None? {
      return None;
    }
    var ok := CheckRulesAndUpdates(rules.value, updates.value);
    if !ok {
      return None;
    }
    r := Some(SafetyManual(rules.value, updates.value));
  }

  /**
   * `part_one`: the sum of the middle pages of the accepted updates. The
   * source panics where the manual does not load.
   */
  method PartOne(input: string) returns (r: Option<nat>)
    requires ManualOf(input).Some?
    ensures r == Some(SumMids(Accepted(ManualOf(input).value.rules, ManualOf(input).value.updates)))
  {
    var loaded := LoadData(input);
    var manual := loaded.value;
    var valid := ValidUpdates(manual);
    var count := SumMiddlePages(valid);
    r := Some(count);
  }

  // ---------------------------------------------------------------------------
  // Writing a manual out, and reading it back
  // ---------------------------------------------------------------------------

  /** A rule as the input writes it: `pre|post`. */
  function FormatRule(r: Rule): string
  {
    NatToString(r.pre) + ['|'] + NatToString(r.post)
  }

  /** The numerals of the pages. */
  function Numerals(pages: seq<nat>): (r: seq<string>)
    ensures |r| == |pages| && forall i :: 0 <= i < |r| ==> r[i] == NatToString(pages[i])
  {
    seq(|pages|, i requires 0 <= i < |pages| => NatToString(pages[i]))
  }

  /** An update as the input writes it: the pages separated by commas. */
  function FormatUpdate(pages: seq<nat>): string
    requires |pages| > 0
  {
    Join(Numerals(pages), ',')
  }

  /** A numeral holds no character other than digits. */
  lemma NumeralHasOnly(n: nat, c: char)
    requires !IsDigit(c)
    ensures c !in NatToString(n)
  {
  }

  lemma ParseFormatRule(r: Rule)
    ensures ParseRuleLine(FormatRule(r)) == Some(r)
  {
    var a, b := NatToString(r.pre), NatToString(r.post);
    NumeralHasOnly(r.pre, '|');
    NumeralHasOnly(r.post, '|');
    SplitJoin([a, b], '|');
    assert Join([a, b], '|') == FormatRule(r);
    ParseNatToString(r.pre);
    ParseNatToString(r.post);
  }

  lemma ParseFormatUpdate(pages: seq<nat>)
    requires |pages| % 2 == 1
    ensures ParseUpdateLine(FormatUpdate(pages)) == Some(Update(pages))
  {
    var parts := Numerals(pages);
    forall k | 0 <= k < |parts|
      ensures ',' !in parts[k] && ParseNumber(parts[k]) == Some(pages[k])
    {
      NumeralHasOnly(pages[k], ',');
      ParseNatToString(pages[k]);
    }
    SplitJoin(parts, ',');
    var r := Traverse(ParseNumber, parts);
    assert r.value == pages;
  }

  /** `"12|34"` is the rule `12|34`. */
  lemma ParseRuleExample()
    ensures ParseRuleLine(FormatRule(Rule(12, 34))) == Some(Rule(12, 34))
    ensures FormatRule(Rule(12, 34)) == "12|34"
  {
    ParseFormatRule(Rule(12, 34));
  }

  /** `"12,34,56"` is the update `12, 34, 56`, whose middle page is 34. */
  lemma ParseUpdateExample()
    ensures ParseUpdateLine(FormatUpdate([12, 34, 56])) == Some(Update([12, 34, 56]))
    ensures Mid(Update([12, 34, 56])) == 34
  {
    ParseFormatUpdate([12, 34, 56]);
  }
  /** The rule lines of a manual, in order. */
  function RuleLines(rules: seq<Rule>): (r: seq<string>)
    ensures |r| == |rules| && forall i :: 0 <= i < |r| ==> r[i] == FormatRule(rules[i])
  {
    seq(|rules|, i requires 0 <= i < |rules| => FormatRule(rules[i]))
  }

  /** The update lines of a manual, in order. */
  function UpdateLines(updates: seq<Update>): (r: seq<string>)
    requires NonEmpty(updates)
    ensures |r| == |updates| && forall k :: 0 <= k < |r| ==> r[k] == FormatUpdate(updates[k].pages)
  {
    seq(|updates|, k requires 0 <= k < |updates| => FormatUpdate(updates[k].pages))
  }

  /** A manual as the puzzle input writes it: the rules, a blank line, the updates. */
  function FormatManual(m: SafetyManual): string
    requires NonEmpty(m.updates)
  {
    Unlines(RuleLines(m.rules) + [""] + UpdateLines(m.updates))
  }

  /**
   * The manuals that read back as they are written: every update has an odd
   * number of pages and more than one (a single page has no comma and is not
   * read as an update), and every page occurs in some rule.
   */
  predicate Writable(m: SafetyManual)
  {
    (forall k :: 0 <= k < |m.updates| ==> |m.updates[k].pages| % 2 == 1 && |m.updates[k].pages| >= 3)
    && Covered(m.rules, m.updates)
  }

  lemma {:induction false} KeepAppend(a: seq<string>, b: seq<string>, c: char)
    ensures Keep(a + b, c) == Keep(a, c) + Keep(b, c)
    decreases |a|
  {
    if |a| == 0 {
      assert a + b == b;
    } else {
      var head := if c in a[0] then [a[0]] else [];
      assert (a + b)[0] == a[0] && (a + b)[1..] == a[1..] + b;
      KeepAppend(a[1..], b, c);
      assert Keep(a + b, c) == head + (Keep(a[1..], c) + Keep(b, c));
    }
  }

  /** Rule lines and update lines around a blank line, sorted by the two filters. */
  lemma KeepSections(rules: seq<string>, updates: seq<string>)
    requires forall i :: 0 <= i < |rules| ==> '|' in rules[i] && ',' !in rules[i]
    requires forall k :: 0 <= k < |updates| ==> ',' in updates[k] && '|' !in updates[k]
    ensures Keep(rules + [""] + updates, '|') == rules
    ensures Keep(rules + [""] + updates, ',') == updates
  {
    KeepAppend(rules + [""], updates, '|');
    KeepAppend(rules, [""], '|');
    KeepEvery(rules, '|');
    KeepNone(updates, '|');
    KeepAppend(rules + [""], updates, ',');
    KeepAppend(rules, [""], ',');
    KeepNone(rules, ',');
    KeepEvery(updates, ',');
  }

  lemma {:induction false} KeepEvery(lines: seq<string>, c: char)
    requires forall k :: 0 <= k < |lines| ==> c in lines[k]
    ensures Keep(lines, c) == lines
  {
    if |lines| > 0 {
      KeepEvery(lines[1..], c);
      assert [lines[0]] + lines[1..] == lines;
    }
  }

  lemma {:induction false} KeepNone(lines: seq<string>, c: char)
    requires forall k :: 0 <= k < |lines| ==> c !in lines[k]
    ensures Keep(lines, c) == []
  {
    if |lines| > 0 {
      KeepNone(lines[1..], c);
    }
  }

  /** The characters of numerals joined by `c`: digits and `c`, with a digit last. */
  lemma {:induction false} JoinNumerals(parts: seq<string>, c: char)
    requires |parts| > 0 && forall k :: 0 <= k < |parts| ==> IsNumeral(parts[k])
    ensures |Join(parts, c)| > 0
    ensures var s := Join(parts, c); (forall i :: 0 <= i < |s| ==> IsDigit(s[i]) || s[i] == c) && IsDigit(s[|s| - 1])
    ensures |parts| >= 2 ==> c in Join(parts, c)
  {
    if |parts| > 1 {
      JoinNumerals(parts[1..], c);
      var s := Join(parts, c);
      assert s[|parts[0]|] == c;
    }
  }

  /** A rule line holds its `|`, no comma and no line break. */
  lemma RuleLineChars(r: Rule)
    ensures '|' in FormatRule(r) && ',' !in FormatRule(r) && IsLine(FormatRule(r))
  {
    var a, b := NatToString(r.pre), NatToString(r.post);
    JoinNumerals([a, b], '|');
    assert Join([a, b], '|') == FormatRule(r);
  }

  /** An update line of two pages or more holds a comma, no `|` and no line break. */
  lemma UpdateLineChars(pages: seq<nat>)
    requires |pages| >= 2
    ensures ',' in FormatUpdate(pages) && '|' !in FormatUpdate(pages) && IsLine(FormatUpdate(pages))
  {
    JoinNumerals(Numerals(pages), ',');
  }

  /** The lines of a written manual before the blank line are rule lines. */
  lemma RuleSection(rules: seq<Rule>)
    ensures forall i :: 0 <= i < |rules| ==> var line := RuleLines(rules)[i]; '|' in line && ',' !in line && IsLine(line)
  {
    forall i | 0 <= i < |rules|
      ensures var line := RuleLines(rules)[i]; '|' in line && ',' !in line && IsLine(line)
    {
      RuleLineChars(rules[i]);
    }
  }

  /** The lines of a written manual after the blank line are update lines. */
  lemma UpdateSection(updates: seq<Update>)
    requires forall k :: 0 <= k < |updates| ==> |updates[k].pages| >= 2
    ensures NonEmpty(updates)
    ensures forall k :: 0 <= k < |updates| ==> var line := UpdateLines(updates)[k]; ',' in line && '|' !in line && IsLine(line)
  {
    forall k | 0 <= k < |updates|
      ensures var line := UpdateLines(updates)[k]; ',' in line && '|' !in line && IsLine(line)
    {
      UpdateLineChars(updates[k].pages);
    }
  }

  /** The lines of a written manual, sorted by `load_data`'s filters. */
  lemma ManualLines(m: SafetyManual)
    requires Writable(m)
    ensures NonEmpty(m.updates)
    ensures Keep(Lines(FormatManual(m)), '|') == RuleLines(m.rules)
    ensures Keep(Lines(FormatManual(m)), ',') == UpdateLines(m.updates)
  {
    UpdateSection(m.updates);
    RuleSection(m.rules);
    var rules, updates := RuleLines(m.rules), UpdateLines(m.updates);
    SectionLines(rules, updates);
    LinesUnlines(rules + [""] + updates);
    KeepSections(rules, updates);
  }

  /** Two sections of lines around a blank line are lines. */
  lemma SectionLines(rules: seq<string>, updates: seq<string>)
    requires forall i :: 0 <= i < |rules| ==> IsLine(rules[i])
    requires forall k :: 0 <= k < |updates| ==> IsLine(updates[k])
    ensures forall k :: 0 <= k < |rules + [""] + updates| ==> IsLine((rules + [""] + updates)[k])
  {
    var all := rules + [""] + updates;
    forall k | 0 <= k < |all|
      ensures IsLine(all[k])
    {
      if k < |rules| {
        assert all[k] == rules[k];
      } else if k > |rules| {
        assert all[k] == updates[k - |rules| - 1];
      }
    }
  }

  lemma ParseRuleLines(rules: seq<Rule>)
    ensures Traverse(ParseRuleLine, RuleLines(rules)) == Some(rules)
  {
    var lines := RuleLines(rules);
    forall i | 0 <= i < |lines|
      ensures ParseRuleLine(lines[i]) == Some(rules[i])
    {
      ParseFormatRule(rules[i]);
    }
    assert Traverse(ParseRuleLine, lines).value == rules;
  }

  lemma ParseUpdateLines(updates: seq<Update>)
    requires forall k :: 0 <= k < |updates| ==> |updates[k].pages| % 2 == 1
    ensures NonEmpty(updates) && Traverse(ParseUpdateLine, UpdateLines(updates)) == Some(updates)
  {
    var lines := UpdateLines(updates);
    forall k | 0 <= k < |lines|
      ensures ParseUpdateLine(lines[k]) == Some(updates[k])
    {
      ParseFormatUpdate(updates[k].pages);
    }
    assert Traverse(ParseUpdateLine, lines).value == updates;
  }

  /** Reading a written manual gives it back. */
  lemma LoadFormatManual(m: SafetyManual)
    requires Writable(m)
    ensures NonEmpty(m.updates) && ManualOf(FormatManual(m)) == Some(m)
  {
    ManualLines(m);
    ParseRuleLines(m.rules);
    ParseUpdateLines(m.updates);
  }

  /** The manual of three rules and two updates that `load_data` is tested on reads back. */
  lemma LoadDataExample()
    ensures var m := SafetyManual([Rule(12, 23), Rule(34, 45), Rule(56, 78)], [Update([12, 34, 56]), Update([78, 23, 45])]);
      NonEmpty(m.updates) && ManualOf(FormatManual(m)) == Some(m)
  {
    var m := SafetyManual([Rule(12, 23), Rule(34, 45), Rule(56, 78)], [Update([12, 34, 56]), Update([78, 23, 45])]);
    assert m.rules[0].pre == 12 && m.rules[1].pre == 34 && m.rules[2].pre == 56;
    assert m.rules[0].post == 23 && m.rules[1].post == 45 && m.rules[2].post == 78;
    LoadFormatManual(m);
  }
}
