# Advent of Code 2024, days 1 to 15, in Dafny

This project models the solutions of one Rust repository to the first fifteen
puzzles of Advent of Code 2024, one Dafny module per `src/bin/NN.rs` file
(`Day01` … `Day15`). It also has two shared modules: `Wrappers` (`Option`,
`Traverse`) and `Text`. `Text` models the parts of Rust's `str` API the
solutions use: `lines`, `split`, `split_terminator`, `split_whitespace`,
`trim`, and the parsing and printing of decimal numbers.

Each module takes the form of the Rust code it models:

- Loops become `method`s with loop invariants.
- Objects whose fields are updated become `class`es: the `Tokenizer` and `Parser` of day 3, `LabMap` and `Simulation` of day 6, the `Equation` of day 7, `CityMap` of day 8, the `StoneStore` of day 11, `Garden` of day 12, and the robots' `Simulation` of day 14.
- Code made of expressions becomes functions.

Every method is proved against a specification function. Lemmas then prove
what the puzzle and the program promise about those functions. Examples of
what is proved:

- the guard of day 6 leaves the map or runs into a cycle exactly as the tick rules say;
- the disk compaction of day 9 keeps the multiset of blocks;
- the stone counts of day 11 agree with the list rule after any number of blinks;
- the input formats of days 5, 7 and 15 have a printer, and the parser reads back what it prints.

The inputs are text. A puzzle part whose program would panic on a malformed
input either requires a well-formed input or returns `None`. Which of the two
it does follows the program: `None` where the panic belongs to a loader, a
requirement where it is a precondition of the solver.

Where the program computes something other than what the puzzle evidently
asks, the model keeps the program's behaviour. The discrepancy is stated under
"## Findings", with a corrected definition proved to have the intended
property.

## Model

| member | source | states |
|---|---|---|
| Day01.LoadData | src/bin/01.rs:7-16 | the two columns are the first and second numbers of each line of `split_terminator("\n")` |
| Day01.Numbers | src/bin/01.rs:10-15 | one number per line, the field `k` of that line |
| Day01.Insert | src/bin/01.rs:28-29 | inserting a value adds exactly that value |
| Day01.InsertSorted | src/bin/01.rs:28-29 | inserting into an ascending sequence keeps it ascending |
| Day01.Sort | src/bin/01.rs:28-29 | `Vec::sort` gives an ascending sequence with the same multiset of values |
| Day01.SortedUnique | src/bin/01.rs:28-29 | two ascending sequences with the same values are equal, so the sorted order is unique |
| Day01.SortReorder | src/bin/01.rs:28-29 | sorting depends only on the multiset of the input |
| Day01.TotalDistanceReorder | src/bin/01.rs:23-36 | the answer of part one does not change when either column is reordered |
| Day01.SumAbsDiffZero | src/bin/01.rs:31-34 | the summed distance is 0 exactly when the sorted columns are equal |
| Day01.SumDistances | src/bin/01.rs:31-34 | the loop accumulates the absolute difference at every index |
| Day01.PartOne | src/bin/01.rs:23-36 | part one is the distance between the sorted columns, paired smallest with smallest |
| Day01.FrequencyTable | src/bin/01.rs:46-54 | the table holds exactly the values of the second column, each with its number of occurrences |
| Day01.WeightedSumIsSimilarity | src/bin/01.rs:56-62 | weighing the first column by the table (missing keys weigh 0) is the similarity score: each value times its count in the second column |
| Day01.SimilarityDisjoint | src/bin/01.rs:56-62 | a first column sharing no value with the second scores 0 |
| Day01.PartTwo | src/bin/01.rs:43-63 | part two is the similarity score of the two columns |
| Day02.SaturatingSub | src/bin/02.rs:66 | `i64::saturating_sub` is the exact difference when it fits in an `i64`, else the bound it overflows |
| Day02.ComputeDirection | src/bin/02.rs:52-60 | the direction is Flat, Increasing or Decreasing by the sign of the difference, carrying its absolute value |
| Day02.Directions | src/bin/02.rs:64-68 | one direction per consecutive pair of levels, from the saturated difference |
| Day02.CollectDirections | src/bin/02.rs:64-68 | the first loop of `compute_defects` builds exactly those directions |
| Day02.TallyDefects | src/bin/02.rs:70-98 | the second loop counts flat and too-large steps, then adds the steps of the minority direction |
| Day02.ComputeDefects | src/bin/02.rs:63-99 | `compute_defects` is the tally of the directions of the levels |
| Day02.SaturatingStep | src/bin/02.rs:66-90 | a saturated difference is a good step (1 to 3 up or down) exactly when the true difference is |
| Day02.CountsZero | src/bin/02.rs:70-98 | no bad step and no decreasing step means every step is a good increase, and likewise downward, both ways |
| Day02.IncreasingSteps | src/bin/02.rs:63-99 | all directions are good increases exactly when every level rises by 1 to 3 |
| Day02.DecreasingSteps | src/bin/02.rs:63-99 | all directions are good decreases exactly when every level falls by 1 to 3 |
| Day02.DefectsZero | src/bin/02.rs:63-99 | a report has no defects exactly when it rises steadily or falls steadily; reports of at most one level have none |
| Day02.Levels | src/bin/02.rs:20-23 | each whitespace-separated word is parsed as an `i64` numeral, in order |
| Day02.NewReport | src/bin/02.rs:19-26 | `Report::new` stores the parsed levels and their defect count |
| Day02.Remove | src/bin/02.rs:38-39 | `Vec::remove` drops exactly one level |
| Day02.IsSafe | src/bin/02.rs:29-45 | `is_safe` holds exactly when the report has no defects or has none once some single level is removed |
| Day02.StrictlySafeIsTolerable | src/bin/02.rs:29-49 | a strictly safe report is safe |
| Day02.ShortReportTolerable | src/bin/02.rs:37-43 | every report of one or two levels is safe |
| Day02.TolerableMeaning | src/bin/02.rs:29-45 | safe means rising or falling steadily, possibly after removing one level, both ways |
| Day02.AllLevels | src/bin/02.rs:107-112 | the levels of every line, in order |
| Day02.Values | src/bin/02.rs:12-15 | the levels of every report, in order |
| Day02.LoadData | src/bin/02.rs:107-112 | `load_data` makes one report per line, each with its own defect count |
| Day02.LoadReports | src/bin/02.rs:108-111 | the `map` makes `Report::new` of each line, in order |
| Day02.AppendReport | src/bin/02.rs:108-111 | one more report keeps the reports consistent with the lines read so far |
| Day02.CountStrictlySafeReports | src/bin/02.rs:116-121 | the filter counts the reports without defects |
| Day02.PartOne | src/bin/02.rs:114-123 | part one is the number of strictly safe reports |
| Day02.CountSafeReports | src/bin/02.rs:127-132 | the filter counts the reports that are safe |
| Day02.PartTwo | src/bin/02.rs:125-134 | part two is the number of safe reports |
| Day02.StrictlySafeCountAtMost | src/bin/02.rs:114-134 | part one never exceeds part two |
| Day03.DigitRun | src/bin/03.rs:146-149 | the length of the run of digits at the head of the text: all digits before it, none at it |
| Day03.Scan | src/bin/03.rs:192-214 | `get` yields nothing exactly at the end of the text, and every token it yields consumes at least one character |
| Day03.ScanSingle | src/bin/03.rs:200-202 | `(`, `,`, `)` are `LParen`, `Comma`, `RParen`, and any other character that is not `d`, `m` or a digit is `UNKNOWN`; each is its own one-character text |
| Day03.ScanNumber | src/bin/03.rs:144-156 | a digit starts a `Number` of one to three digits, which stops at three or at the first non-digit |
| Day03.ScanM | src/bin/03.rs:160-179 | an `m` is `MUL` exactly when `mul` starts there; otherwise it is an `UNKNOWN` `m` of one character |
| Day03.ScanD | src/bin/03.rs:203-211 | a `d` is tried as `don't` first, then as `do`, and is otherwise an `UNKNOWN` `d` |
| Day03.ScanExample2179 | src/bin/03.rs:467-471 | `"2179"` starts with the number `217` |
| Day03.TokensExample2927 | src/bin/03.rs:475-488 | `"2927"` is the number `292`, then the number `7`, then the end |
| Day03.Tokenizer.constructor | src/bin/03.rs:130-135 | a new tokenizer reads from the first character |
| Day03.Tokenizer.GetNumber | src/bin/03.rs:144-156 | `get_number` returns the digits from the one just read, at most three, and moves past them |
| Day03.Tokenizer.LookFor | src/bin/03.rs:160-179 | `look_for` consumes `symbol` when the text from the character just read spells it, and otherwise returns `UNKNOWN` with the character already read |
| Day03.Tokenizer.Get | src/bin/03.rs:192-214 | `get` returns the next token and its text and moves past it, or `(None, None)` at the end without moving |
| Day03.FindEntry | src/bin/03.rs:312-325 | `find_entry` returns an entry with the state and token asked for, or `None` exactly when the table has none |
| Day03.TransitionKeysUnique | src/bin/03.rs:233-310 | no two entries of the transition table share a (state, token) key |
| Day03.FindFirst | src/bin/03.rs:312-325 | the entry found is the first one in table order with the key |
| Day03.Lookup | src/bin/03.rs:233-310 | the table, as a function of state and token, gives an entry with that key whose handler suits its token |
| Day03.LookupFindsEntry | src/bin/03.rs:233-325 | searching the table finds exactly the transition `Lookup` names |
| Day03.KeyIndex | src/bin/03.rs:233-325 | the index of the one entry with the key, or the table's length when there is none |
| Day03.StartTransitions | src/bin/03.rs:233-310 | only `mul`, `do` and `don't` leave `Start` |
| Day03.ParseStep | src/bin/03.rs:341-357 | a node is emitted only on `RParen` from `LParen` or `Param2`, after which the parser is back at `Start` with a fresh node |
| Day03.ParseStepSkips | src/bin/03.rs:341-349 | a token with no transition from the current state and none from `Start` is skipped, leaving a fresh node at `Start` |
| Day03.ScanSound | src/bin/03.rs:144-156 | every number token's text is a numeral, so `process_param`'s parse cannot fail |
| Day03.ParseStepInv | src/bin/03.rs:341-357 | a step keeps the node under construction named, and every node it emits is a `mul`, `do` or `don't` |
| Day03.ParseFromCommands | src/bin/03.rs:328-360 | every node `parse` emits is a `mul`, `do` or `don't` |
| Day03.ParseSpecCommands | src/bin/03.rs:398-415 | the panic arm of `part_two` cannot be reached |
| Day03.ExamplePunctuation | src/bin/03.rs:491-508 | the command name and punctuation of `"mul(123,456)"` are tokenized as the test lists them, then the end |
| Day03.ExampleFirstNumber | src/bin/03.rs:491-508 | `123` is the third token of `"mul(123,456)"` |
| Day03.ExampleSecondNumber | src/bin/03.rs:491-508 | `456` is the fifth token of `"mul(123,456)"` |
| Day03.ExampleValues | src/bin/03.rs:373-380 | the numerals `123` and `456` parse to 123 and 456 |
| Day03.ExampleSymbolSteps | src/bin/03.rs:341-357 | the parser's moves on the name and punctuation of `"mul(123,456)"`, ending in one emitted node |
| Day03.ExampleNumberSteps | src/bin/03.rs:373-380 | the two numbers are recorded as first and second parameter |
| Day03.ParseExample | src/bin/03.rs:511-522 | `"mul(123,456)"` parses to exactly one `mul` node with 123 and 456 |
| Day03.Parser.constructor | src/bin/03.rs:233-310 | a new parser has the fixed transition table and no nodes |
| Day03.Parser.Parse | src/bin/03.rs:328-360 | `parse` appends exactly the nodes of the specification to the parser's list and returns that list |
| Day03.Parser.Advance | src/bin/03.rs:336-357 | one turn of the loop follows `ParseStep`: retry from `Start`, skip, handle, emit |
| Day03.Parser.FindTransition | src/bin/03.rs:312-325 | `find_entry`'s search loop returns the first matching entry |
| Day03.PartOne | src/bin/03.rs:389-396 | part one is the sum of the products of all `mul` nodes |
| Day03.GatedDisabled | src/bin/03.rs:398-415 | part two's `disabled` flag is set exactly when a `don't` came after the latest `do` |
| Day03.GatedWithoutDont | src/bin/03.rs:398-415 | without a `don't`, part two counts every `mul`, like part one |
| Day03.GatedAtMost | src/bin/03.rs:389-415 | part two never exceeds part one |
| Day03.PartTwo | src/bin/03.rs:398-415 | part two sums the products of the `mul` nodes that are switched on |
| Text.LoadGrid | src/bin/04.rs:8-19 | `load_data` gives the lines with trailing whitespace removed, and `None` (the panic) exactly when there is no line or a row is not as long as the first |
| Day04.FindFrom | src/bin/04.rs:34-35 | `find("XMAS")` on a tail gives the first index at which `XMAS` starts, or `None` when there is none |
| Day04.OccurrencesNone | src/bin/04.rs:30-44 | a line without `XMAS` counts 0 |
| Day04.OccurrencesDrop | src/bin/04.rs:34-41 | dropping a prefix in which no `XMAS` starts keeps the count |
| Day04.OccurrencesAfterMatch | src/bin/04.rs:39-40 | after an `XMAS` no other occurrence starts within its four characters, so resuming after it loses nothing |
| Day04.OccurrencesStop | src/bin/04.rs:35-37 | when `find` fails nothing is left to count |
| Day04.OccurrencesStep | src/bin/04.rs:34-40 | a found `XMAS` counts one, and the rest is counted from just after it |
| Day04.CountXmasInStr | src/bin/04.rs:30-44 | `count_xmas_in_str` is the number of indices where `XMAS` starts, and its assertion never fails |
| Day04.CountExamples | src/bin/04.rs:212-218 | `"XMAS"`, `"XMASXMAS"`, `"XMASXMASXMA"` count 1, 2 and 2 |
| Day04.CountLaterExamples | src/bin/04.rs:216 | `"ABCXMASSSX"` counts 1 |
| Day04.CountNoLetterExample | src/bin/04.rs:217 | `"123456789"` counts 0 |
| Day04.Reverse | src/bin/04.rs:25 | the reverse reads the line from its end |
| Day04.ReverseTwice | src/bin/04.rs:25 | reversing twice gives the line back |
| Day04.BothWaysReverse | src/bin/04.rs:22-27 | a line and its reverse count the same, both ways |
| Day04.CountXmasInVec | src/bin/04.rs:22-27 | `count_xmas_in_vec` counts the line forwards and backwards |
| Day04.CountInVecExample | src/bin/04.rs:200-204 | the line `XMASAMXMAS` of `test_xmas_in_vec` counts 3 both ways |
| Day04.CountInVecForwards | src/bin/04.rs:200-204 | read forwards it holds two words |
| Day04.CountInVecTail | src/bin/04.rs:200-204 | after its first word it holds one more |
| Day04.CountInVecBackwards | src/bin/04.rs:200-204 | the reverse of the test's line, `SAMXMASAMX`, holds one word, the backwards half of `count_xmas_in_vec` |
| Day04.TransposeShape | src/bin/04.rs:47-59 | the transpose has one row per column, each as long as the grid is tall, with cell `(j, i)` from cell `(i, j)` |
| Day04.TransposeTwice | src/bin/04.rs:47-59 | transposing a rectangular grid twice gives it back |
| Day04.TransposeExample | src/bin/04.rs:206-210 | `["123", "456"]` becomes `["14", "25", "36"]` |
| Day04.TransposeStep | src/bin/04.rs:55-57 | copying one cell extends the copied part by that cell |
| Day04.TransposeNextRow | src/bin/04.rs:54-58 | a finished row moves the copying to the next row |
| Day04.ChangeRowsToColumns | src/bin/04.rs:47-59 | `change_rows_to_columns` is the transpose |
| Day04.Shear | src/bin/04.rs:63-87 | the sheared grid is as tall as the grid and twice as wide |
| Day04.EveryCellOnALine | src/bin/04.rs:63-113 | with at most one more row than columns, every cell lands inside the sheared grid in the column of its diagonal |
| Day04.Stop | src/bin/04.rs:63-113 | the rows a diagonal passes form an interval |
| Day04.Band | src/bin/04.rs:63-113 | a row has a cell on diagonal `k` exactly when it lies in that interval |
| Day04.DiagonalsRow | src/bin/04.rs:63-113 | each row of a diagonal transform is one diagonal of the grid padded with `.` on both sides |
| Day04.ShearStep | src/bin/04.rs:74-80 | placing one cell at its shifted column extends the placed part by that cell |
| Day04.ShearNextRow | src/bin/04.rs:74-80 | a finished row moves the placing to the next row |
| Day04.ShearDone | src/bin/04.rs:63-87 | once every row is placed, the matrix is the sheared grid |
| Day04.ChangeDiag1ToRows | src/bin/04.rs:63-87 | `change_diag1_to_rows` gives the bottom-left to top-right diagonals, one per row |
| Day04.ChangeDiag2ToRows | src/bin/04.rs:89-113 | `change_diag2_to_rows` gives the top-left to bottom-right diagonals, one per row |
| Day04.Dots | src/bin/04.rs:63-113 | the padding is `n` dots |
| Day04.OccurrencesDotsBefore | src/bin/04.rs:63-113 | padding before a line adds no `XMAS` |
| Day04.OccurrencesDotsAfter | src/bin/04.rs:63-113 | padding after a line adds no `XMAS` |
| Day04.ReverseConcat | src/bin/04.rs:25 | the reverse of two pieces is the reversed pieces in swapped order |
| Day04.BothWaysPadded | src/bin/04.rs:22-27 | a padded diagonal counts as the diagonal itself, both ways |
| Day04.TotalPointwise | src/bin/04.rs:115-142 | lines with equal counts have equal totals |
| Day04.DiagonalsTotal | src/bin/04.rs:115-142 | counting the rows of a diagonal transform counts the diagonals of the grid |
| Day04.CountInLines | src/bin/04.rs:115-142 | `.map(count_xmas_in_vec).sum()` is the total over the lines |
| Day04.CountXmasInPuzzle | src/bin/04.rs:115-142 | `count_xmas_in_puzzle` is the number of `XMAS` along rows, columns and both diagonal directions, forwards and backwards |
| Day04.PartOne | src/bin/04.rs:144-146 | part one is that count for the loaded grid |
| Day04.IsXMas | src/bin/04.rs:173-191 | `is_x_mas` holds exactly when the centre is `A` and both diagonals have an `M` at one end and an `S` at the other |
| Day04.EndsMS | src/bin/04.rs:180-186 | the two ends hold `M` and `S` in either order |
| Day04.IsXMasExamples | src/bin/04.rs:228-268 | the four crossings of the test are accepted and the two near misses rejected |
| Day04.WindowXMas | src/bin/04.rs:155-163 | testing the transposed window built in the loop is testing the 3-by-3 block itself |
| Day04.FoundStep | src/bin/04.rs:154-166 | testing one block adds it, and only it, to the corners found |
| Day04.FoundNextRow | src/bin/04.rs:153-166 | after the last block of a row the scan goes on at the next row |
| Day04.FoundAll | src/bin/04.rs:153-166 | once every row is scanned, every crossed block has been found |
| Day04.CountXMasInPuzzle | src/bin/04.rs:149-170 | `count_x_mas_in_puzzle` counts every 3-by-3 block with a crossed `MAS`, each exactly once |
| Day04.PartTwo | src/bin/04.rs:193-195 | part two is the number of crossed `MAS` blocks of the loaded grid |
| Day05.Mid | src/bin/05.rs:24-28 | the middle page is one of the update's pages |
| Day05.MidIsCentred | src/bin/05.rs:24-28 | on an odd number of pages the middle page has as many pages before it as after it |
| Day05.Blocks | src/bin/05.rs:36-42 | the loop over the rules finds a rule exactly when one of the remaining pages must come before `page` |
| Day05.IsValidChecks | src/bin/05.rs:31-45 | `is_valid` holds exactly when no rule puts a later page before `page`, and no page is overruled by a page two or more places after it: the next neighbour is never compared |
| Day05.ValidUpdateChecks | src/bin/05.rs:47-55 | the check of `valid_updates` compares the first page with every later one and every other page only with pages at least two places on |
| Day05.OrderedIsValid | src/bin/05.rs:31-55 | an update in the rules' order is accepted |
| Day05.ShortUpdates | src/bin/05.rs:31-55 | on one or two pages acceptance is exactly being in the rules' order |
| Day05.NeighboursUnchecked | src/bin/05.rs:44 | with the rule `2\|1`, `3,1,2` is accepted though it puts 1 before 2 |
| Day05.IsValidFixedOrdered | src/bin/05.rs:31-45 | with the recursion on the next page, acceptance is exactly being in the rules' order |
| Day05.Accepted | src/bin/05.rs:47-55 | the kept updates are no more than the updates, and none is empty |
| Day05.AcceptedHas | src/bin/05.rs:47-55 | an update is kept exactly when it is one of the updates and `is_valid` accepts it |
| Day05.AcceptedAll | src/bin/05.rs:47-55 | when every update is accepted all are kept, in order |
| Day05.ValidUpdates | src/bin/05.rs:47-55 | `valid_updates` keeps the accepted updates, in order |
| Day05.AcceptedSum | src/bin/05.rs:107-115 | the sum over the kept updates is at most the sum over all of them |
| Day05.SumMiddlePages | src/bin/05.rs:109-112 | the loop of `part_one` adds up the middle pages |
| Day05.ParseNumber | src/bin/05.rs:62-63 | `parse::<u64>()` succeeds exactly on a numeral and then gives its value |
| Day05.Keep | src/bin/05.rs:97-98 | the filter of `load_data` keeps only lines that contain the character |
| Day05.RulePages | src/bin/05.rs:85-89 | the set holds exactly the pages that occur on either side of some rule |
| Day05.CheckRulesAndUpdates | src/bin/05.rs:84-95 | `check_rules_and_updates` succeeds, rather than panic, exactly when every page of every update occurs in some rule |
| Day05.ManualOf | src/bin/05.rs:96-105 | a loaded manual has no empty update and every update's pages occur in the rules |
| Day05.LoadData | src/bin/05.rs:96-105 | `load_data` reads the rule lines, then the update lines, then checks their pages; `None` where it panics |
| Day05.PartOne | src/bin/05.rs:107-115 | part one is the sum of the middle pages of the accepted updates |
| Day05.Numerals | src/bin/05.rs:68-75 | one numeral per page, in order |
| Day05.NumeralHasOnly | src/bin/05.rs:97-98 | a numeral holds neither `\|` nor `,` |
| Day05.ParseFormatRule | src/bin/05.rs:59-65 | `parse_rule_line` reads back every rule as it is written |
| Day05.ParseFormatUpdate | src/bin/05.rs:68-80 | `parse_update_line` reads back every update of an odd number of pages |
| Day05.ParseRuleExample | src/bin/05.rs:126-129 | `"12\|34"` is the rule `12\|34` |
| Day05.ParseUpdateExample | src/bin/05.rs:130-140 | `"12,34,56"` is the update `12,34,56`, with middle page 34 |
| Day05.RuleLines | src/bin/05.rs:97 | one rule line per rule, in order |
| Day05.UpdateLines | src/bin/05.rs:98 | one update line per update, in order |
| Day05.KeepAppend | src/bin/05.rs:97-98 | filtering two blocks of lines filters each in turn |
| Day05.KeepSections | src/bin/05.rs:97-98 | around a blank line, the `\|` filter takes the rule lines and the `,` filter the update lines |
| Day05.KeepEvery | src/bin/05.rs:97-98 | the filter keeps lines that all contain the character |
| Day05.KeepNone | src/bin/05.rs:97-98 | the filter drops lines none of which contain the character |
| Day05.JoinNumerals | src/bin/05.rs:68-75 | numerals joined by a separator hold only digits and the separator, end in a digit, and hold the separator when there are two |
| Day05.RuleLineChars | src/bin/05.rs:97 | a rule line holds `\|`, no comma and no line break |
| Day05.UpdateLineChars | src/bin/05.rs:98 | an update line of two pages or more holds `,`, no `\|` and no line break |
| Day05.RuleSection | src/bin/05.rs:97 | every line of the rule section is a rule line |
| Day05.UpdateSection | src/bin/05.rs:98 | every line of the update section is an update line |
| Day05.ManualLines | src/bin/05.rs:96-100 | the two filters split a written manual into its rule lines and its update lines |
| Day05.ParseRuleLines | src/bin/05.rs:99 | the rule lines read back as the rules |
| Day05.ParseUpdateLines | src/bin/05.rs:100 | the update lines read back as the updates |
| Day05.LoadFormatManual | src/bin/05.rs:96-105 | `load_data` reads back every manual whose updates have an odd number (above one) of pages found in the rules |
| Day05.LoadDataExample | src/bin/05.rs:142-165 | the manual of three rules and two updates of the test reads back |
| Day06.Turn | src/bin/06.rs:284-291 | turning is a quarter turn clockwise |
| Day06.FourTurns | src/bin/06.rs:581-594 | four turns bring the guard back to its heading, and fewer do not |
| Day06.ToChar | src/bin/06.rs:242-249 | every heading is written as a guard character |
| Day06.FromChar | src/bin/06.rs:251-259 | reading a guard character gives the heading written as it; other characters panic |
| Day06.CharRoundTrip | src/bin/06.rs:242-259 | reading a written heading gives it back |
| Day06.NewTile | src/bin/06.rs:195-202 | `#` is a column, a guard character an empty tile already visited, `.` an empty tile not yet visited; other characters panic |
| Day06.Guard.Turned | src/bin/06.rs:284-291 | turning keeps the position and turns the heading |
| Day06.NewGuard | src/bin/06.rs:270-276 | `Guard::new` sits at `(x, y)` facing the way its character shows |
| Day06.ColumnAt | src/bin/06.rs:78-91 | `is_column` holds exactly for a position on the map that holds a column |
| Day06.Ahead | src/bin/06.rs:334-378 | the tile in front of the guard is one step away; there is none only facing up on the top row or left on the left column, while down and right may step one past the map |
| Day06.TurnsToOpen | src/bin/06.rs:385-388 | a guard that is not walled in needs at most three turns to face a free tile |
| Day06.TurnApproachesOpen | src/bin/06.rs:385-388 | a turn in front of a column brings the guard one turn nearer to a free heading |
| Day06.Visited | src/bin/06.rs:145-147 | visiting marks just that tile visited and changes no other |
| Day06.ColumnAdded | src/bin/06.rs:45-47 | adding a column puts a column on just that tile |
| Day06.EvolvesTransitive | src/bin/06.rs:204-210 | tiles only go from unvisited to visited, over any number of steps |
| Day06.MoveGuardSpec | src/bin/06.rs:51-76 | with no guard nothing happens; a step off the map removes the guard; otherwise both tiles are visited and the guard stands on the new one with its heading |
| Day06.TickSpec | src/bin/06.rs:326-401 | a tick with no guard reports an exit; an exit removes the guard and changes nothing else; a cycle changes nothing |
| Day06.TickAtColumn | src/bin/06.rs:386-387 | before a column the guard turns in place |
| Day06.TickIntoOpenTile | src/bin/06.rs:389-400 | a step onto a free tile reports a cycle if its edge was walked before, and otherwise records the edge and moves the guard there |
| Day06.TickLeavingMap | src/bin/06.rs:380-383 | with no tile ahead the guard exits at once; stepping past the far edge records the edge, and the next tick exits |
| Day06.AllEdges | src/bin/06.rs:389-397 | the edges a guard can walk on the map start on the map and end at most one past it |
| Day06.BehindIsOpen | src/bin/06.rs:398 | after a step the guard is not walled in |
| Day06.TickStep | src/bin/06.rs:403-410 | each tick that goes on keeps the map's shape and either turns without a new edge or records a new edge, so `run` ends |
| Day06.RunSpec | src/bin/06.rs:403-410 | `run` ends with an exit or a cycle, and it reports an exit exactly when the guard has gone |
| Day06.WalledInSpins | src/bin/06.rs:385-410 | a guard with columns on all four sides only turns, so every number of ticks leaves the run in progress and `run` never returns |
| Day06.ColumnsAround | src/bin/06.rs:334-388 | columns on the four sides of an inner tile wall in a guard there |
| Day06.WalledInExampleBoxed | src/bin/06.rs:334-388 | the guard in the middle of a plus of columns is walled in |
| Day06.TickFixed | src/bin/06.rs:326-401 | the intended `tick` reports a cycle for a walled-in guard and otherwise ticks as the source does |
| Day06.RunFixed | src/bin/06.rs:403-410 | the intended `run` ends on every map with an exit or a cycle |
| Day06.RunFixedAgrees | src/bin/06.rs:403-410 | wherever the source's `run` ends, the intended one ends the same way, and a walled-in guard ends at once with a cycle |
| Day06.RunUnfold | src/bin/06.rs:403-410 | a tick that goes on is the first of `run`'s ticks: the rest of the run starts from its state |
| Day06.PathShrinks | src/bin/06.rs:334-378 | a step ahead keeps the guard on its line, one step nearer the edge |
| Day06.ClearAheadStep | src/bin/06.rs:386-400 | stepping along a line without columns leaves the rest of it without columns |
| Day06.EdgesBehindStep | src/bin/06.rs:389-397 | the edge a straight step records lies behind the guard's new tile, like every edge before it |
| Day06.StraightEnd | src/bin/06.rs:380-383 | at the top or left edge the run exits in one tick; at the bottom or right edge it takes two, the first stepping past the edge |
| Day06.StraightTick | src/bin/06.rs:389-400 | facing a free tile with no edge walked from its own tile, a tick moves the guard there and records the step |
| Day06.StraightStep | src/bin/06.rs:389-410 | after that tick the guard is on the same clear line one step shorter, both tiles visited and no other changed |
| Day06.StraightRunEnd | src/bin/06.rs:380-410 | at the edge the walk off the map visits only the guard's own tile |
| Day06.StraightRunStep | src/bin/06.rs:389-410 | a straight step followed by a walk off the map is a walk off the map from the tile before |
| Day06.StraightRun | src/bin/06.rs:326-410 | with no column ahead the run exits, visits exactly the tiles of the guard's line and takes one tick per step plus one, or plus two leaving by the bottom or the right |
| Day06.StraightFromStart | src/bin/06.rs:403-410 | a fresh simulation whose guard has no column ahead walks straight off the map |
| Day06.StraightTiles | src/bin/06.rs:389-400 | the tiles after a step and a walk down the rest of the line are the first tiles with the whole line visited |
| Day06.RowVisitsMonotone | src/bin/06.rs:149-154 | a row whose visited tiles stay visited counts no fewer |
| Day06.CountVisitedMonotone | src/bin/06.rs:149-154 | the visit count never falls as the guard walks |
| Day06.RowVisitsPositive | src/bin/06.rs:149-154 | a row with a visited tile counts at least one |
| Day06.CountVisitedPositive | src/bin/06.rs:149-154 | a map with a visited tile counts at least one |
| Day06.RowVisitedFromSize | src/bin/06.rs:149-154 | a row's visit count is the number of its visited positions |
| Day06.VisitedFromSize | src/bin/06.rs:149-154 | the visit count is the number of visited positions |
| Day06.LoadMapData | src/bin/06.rs:92-103 | one row per line, with trailing whitespace trimmed |
| Day06.MakeTilesSpec | src/bin/06.rs:126-136 | one tile per character, a column exactly on `#` and visited exactly on a guard character |
| Day06.GuardIndex | src/bin/06.rs:117-120 | the first guard character of a row, or its length when there is none |
| Day06.FirstGuardFrom | src/bin/06.rs:115-124 | the first guard character in row-major order from a row on, or `None` when there is none |
| Day06.FindGuardSpec | src/bin/06.rs:115-124 | `find_guard` gives the first guard character in row-major order with its heading, or `None` when there is none |
| Day06.LabMap.FindGuard | src/bin/06.rs:115-124 | the nested scan returns at the first guard character in row-major order |
| Day06.LabMap.MakeTiles | src/bin/06.rs:126-136 | the nested loops build the tile rows one character at a time |
| Day06.FromRows | src/bin/06.rs:137-144 | the loaded map is rectangular with its guard on it and no edge walked |
| Day06.Initial | src/bin/06.rs:137-144 | `LabMap::new` gives a rectangular map with its guard on it |
| Day06.RowVisitsOfRow | src/bin/06.rs:126-136 | a freshly built row counts one visit per guard character |
| Day06.LoadedVisitCount | src/bin/06.rs:535-555 | a freshly loaded map counts one visit per guard character |
| Day06.LabMap.constructor | src/bin/06.rs:137-144 | `LabMap::new` holds the loaded tiles and the first guard |
| Day06.LabMap.Clone | src/bin/06.rs:37 | a clone is a new map with the same tiles and guard |
| Day06.LabMap.FromParts | src/bin/06.rs:140-143 | a map built from its tiles and guard holds them |
| Day06.LabMap.AddColumn | src/bin/06.rs:45-47 | `add_column` places a column on the tile and leaves the guard |
| Day06.LabMap.Visit | src/bin/06.rs:145-147 | `visit` marks the tile visited and leaves the guard |
| Day06.LabMap.MoveGuard | src/bin/06.rs:51-76 | `move_guard` changes map and guard as its specification says |
| Day06.LabMap.IsColumn | src/bin/06.rs:78-91 | `is_column` tells whether a position on the map holds a column |
| Day06.LabMap.GetVisitCount | src/bin/06.rs:149-154 | the number of visited tiles |
| Day06.GuardIndexIsFirst | src/bin/06.rs:117-120 | the first guard character found by the scan is the one the specification names |
| Day06.Simulation.constructor | src/bin/06.rs:310-315 | a new simulation has walked no edge |
| Day06.Simulation.Tick | src/bin/06.rs:326-401 | one tick changes map, guard and edges and reports the status as its specification says |
| Day06.Simulation.Run | src/bin/06.rs:403-410 | `run` ticks until the guard exits or walks an edge twice, ending in the state its specification gives |
| Day06.PartOne | src/bin/06.rs:417-431 | part one is the number of tiles visited when the run ends, and that number is never zero |
| Day06.BlockedAfterAddColumn | src/bin/06.rs:455-456 | a column that is not in front of the guard does not block it |
| Day06.AheadInjective | src/bin/06.rs:337-378 | different headings face different tiles |
| Day06.AddColumnKeepsRunPre | src/bin/06.rs:449-457 | a column away from the start cannot wall in a guard that was not walled in and is not trappable, so the runs of `part_two` end |
| Day06.CycleWithColumn | src/bin/06.rs:455-458 | a run on the map with one more column reports a cycle exactly when the column makes the guard loop |
| Day06.CountCycles | src/bin/06.rs:441-467 | the nested scan counts every tile, other than the start, visited in the first run whose column makes the guard loop |
| Day06.TryTile | src/bin/06.rs:446-465 | one tile of the scan is counted exactly when it is not the start, is visited and not a column, and its column makes the guard loop |
| Day06.NextCounted | src/bin/06.rs:444-466 | scanning one tile adds one to the count exactly when that tile is counted |
| Day06.RowDone | src/bin/06.rs:444-445 | the end of a row is the start of the next |
| Day06.CountedBelowVisited | src/bin/06.rs:446-465 | the counted tiles are visited tiles other than the visited start, so there are fewer of them than the visit count |
| Day06.PartTwo | src/bin/06.rs:433-470 | part two is the number of visited tiles, other than the start, whose column makes the guard loop, and it is less than part one |
| Day07.ConcatShifts | src/bin/07.rs:50-53 | `\|\|` shifts the value so far left by as many decimal places as the operand has digits and adds the operand |
| Day07.EvaluateFromFront | src/bin/07.rs:44-55 | the operands are folded from the left, starting with the first, with no precedence |
| Day07.EvaluateFromSplit | src/bin/07.rs:46-55 | the fold may be cut at any operand: fold the front, then go on from its value |
| Day07.EvaluateExample | src/bin/07.rs:44-55 | `2 + 3 * 4` is 20 |
| Day07.ConcatExample | src/bin/07.rs:50-53 | `12 \|\| 3` is 123 and `1 \|\| 2` is 12 |
| Day07.SearchSound | src/bin/07.rs:25-42 | what the depth-first search finds extends the operators tried so far by allowed operators and solves the equation |
| Day07.SearchAmongSound | src/bin/07.rs:32-41 | the same for the loop over the allowed operators |
| Day07.SearchComplete | src/bin/07.rs:25-42 | if some extension by allowed operators solves the equation, the search finds a solution |
| Day07.SearchAmongComplete | src/bin/07.rs:32-41 | the loop reaches the operator such an extension starts with, or succeeds before |
| Day07.SearchCorrect | src/bin/07.rs:25-42 | the search from no operators succeeds exactly when the equation can be solved with the allowed operators, and then gives a solution |
| Day07.MoreOperatorsSolveMore | src/bin/07.rs:25-42 | allowing more operators never loses a solution |
| Day07.PartTwoSolvesMore | src/bin/07.rs:67-73 | every equation `*` and `+` solve, `*`, `+` and `\|\|` solve too |
| Day07.ExampleTwo | src/bin/07.rs:143-144 | `2: 1 1` is solved by `+`, with and without `\|\|` |
| Day07.ExampleEight | src/bin/07.rs:145-146 | `8: 4 2` is solved by `*`, with and without `\|\|` |
| Day07.TwelveValues | src/bin/07.rs:147-148 | `2 * 4 * 4` is 32 and `2 * 4 + 4` is 12 |
| Day07.ExampleTwelve | src/bin/07.rs:147-148 | `12: 2 4 4` is solved first by `*` then `+`, with and without `\|\|` |
| Day07.TwelveFirst | src/bin/07.rs:147-148 | with `*` and `+` tried first, the search finds `*, +` for `12: 2 4 4` |
| Day07.OneTwoThreeValues | src/bin/07.rs:44-55 | `1 a 2 b 3` is `(1 a 2) b 3` |
| Day07.OneTwoThreeNoMultAdd | src/bin/07.rs:149 | without `\|\|`, `1 a 2 b 3` is never 123 |
| Day07.OneTwoThreeFailsAfter | src/bin/07.rs:149 | after any first operator the search with `*` and `+` fails on `123: 1 2 3` |
| Day07.ExampleOneTwoThreeFails | src/bin/07.rs:149-150 | `123: 1 2 3` has no solution with `*` and `+`, so no operators are recorded |
| Day07.OneTwoThreeWithConcat | src/bin/07.rs:162-163 | `1 a 2 b 3` is 123 exactly when both operators are `\|\|` |
| Day07.ConcatFailsAfter | src/bin/07.rs:162-163 | after a first operator other than `\|\|`, no second operator reaches 123 |
| Day07.ConcatFoundAfterConcat | src/bin/07.rs:162-163 | after `\|\|` the search finds `\|\|, \|\|` |
| Day07.ExampleOneTwoThreeConcat | src/bin/07.rs:162-163 | with `\|\|`, `123: 1 2 3` is solved by `\|\|, \|\|` |
| Day07.Equation.constructor | src/bin/07.rs:88-92 | a new equation holds its target and operands and no operators |
| Day07.Equation.CombineWithOperators | src/bin/07.rs:44-61 | succeeds exactly when the fold with the first operators gives the target, and then records the operators tried |
| Day07.Equation.TryOperators | src/bin/07.rs:25-42 | succeeds exactly when the search succeeds, recording the solution it finds and nothing on failure |
| Day07.Equation.MultAddOperators | src/bin/07.rs:67-69 | the search with `*` then `+` |
| Day07.Equation.MultAddConcatOperators | src/bin/07.rs:71-73 | the search with `*`, `+` then `\|\|` |
| Day07.Combine | src/bin/07.rs:45-55 | the loop computes the fold of the operands with the first operators |
| Day07.ConcatText | src/bin/07.rs:50-53 | formatting both numbers, joining and parsing gives the digits of the second after those of the first |
| Day07.EvaluateStep | src/bin/07.rs:46-55 | each loop step folds one more operand in |
| Day07.ParseOperands | src/bin/07.rs:84-87 | the operands parse exactly when every word is a numeral, and then give their values |
| Day07.Numerals | src/bin/07.rs:84-87 | one numeral per number, in order |
| Day07.ParseFormatLine | src/bin/07.rs:79-95 | a line written as `target: operands` reads back as that equation |
| Day07.TrimFormatLine | src/bin/07.rs:79 | trimming a written line changes nothing |
| Day07.NumeralsAreWords | src/bin/07.rs:85 | numerals hold no whitespace |
| Day07.ParseNumerals | src/bin/07.rs:84-87 | operands written with spaces read back |
| Day07.FormatLineIsLine | src/bin/07.rs:78 | a written equation is one line |
| Day07.LinesFormatInput | src/bin/07.rs:78 | equations written one per line are the lines read back |
| Day07.ParseFormatInput | src/bin/07.rs:76-98 | `load_input` recovers every written equation, in order |
| Day07.FormatLineExample | src/bin/07.rs:168 | `2: 1 1` and `8: 4 2` are those equations written out |
| Day07.LoadInputExample | src/bin/07.rs:166-184 | the two lines of the test read back as the two equations |
| Day07.LoadInput | src/bin/07.rs:76-98 | `load_input` gives one new equation with no operators per line, or `None` where it panics |
| Day07.LoadLines | src/bin/07.rs:78-96 | the loop over the lines succeeds exactly when every line parses, and gives their equations in order |
| Day07.SumSolved | src/bin/07.rs:100-134 | the sum of the targets of the equations the allowed operators solve |
| Day07.SumEquations | src/bin/07.rs:103-111 | the loop over the equations adds the targets of the solved ones |
| Day07.PartOne | src/bin/07.rs:100-116 | part one sums the targets solvable with `*` and `+` |
| Day07.PartTwo | src/bin/07.rs:118-134 | part two sums the targets solvable with `*`, `+` and `\|\|` |
| Day07.PartTwoAtLeastPartOne | src/bin/07.rs:100-134 | part two's total is at least part one's |
| Day08.ComputeAntinode | src/bin/08.rs:48-67 | `compute_antinode` sets the flag to whether two of the node's offsets, the earlier first, name one frequency and one is twice the other |
| Day08.ComputeAntinodeExample | src/bin/08.rs:390-399 | offsets `(1, 1)` and `(2, 2)` to two `a` antennae make an antinode |
| Day08.DistancesTo | src/bin/08.rs:185-192 | one offset per antenna |
| Day08.DoubledPairIsAntinode | src/bin/08.rs:48-67 | a doubled pair among a node's offsets means exactly that the node is in line with two antennae of one frequency, twice as far from one as from the other |
| Day08.NodesOf | src/bin/08.rs:127-150 | one node per character, row by row |
| Day08.RowAntennaeHas | src/bin/08.rs:164-178 | the antennae listed from a row left of a column are exactly those the nodes hold there |
| Day08.RowAntennaeOrdered | src/bin/08.rs:164-178 | they are listed left to right |
| Day08.GridAntennaeHas | src/bin/08.rs:162-180 | the antennae listed from the rows above a row are exactly those the nodes hold there |
| Day08.RowMajorAppend | src/bin/08.rs:162-180 | a row's antennae, left to right, after those of earlier rows stay in row-major order |
| Day08.GridAntennaeOrdered | src/bin/08.rs:162-180 | the antennae are listed in row-major order |
| Day08.AntennaeOf | src/bin/08.rs:162-180 | the antennae are exactly those on the map, in row-major order |
| Day08.AntennaeOfHas | src/bin/08.rs:162-180 | listing every row gives every antenna on the map |
| Day08.CollectAntennae | src/bin/08.rs:162-180 | `collect_antennae` lists the antennae of the map |
| Day08.AntennaeExample | src/bin/08.rs:293-388 | the row `.aA0zZ9` gives six antennae, left to right |
| Day08.UpdateStart | src/bin/08.rs:183-194 | a row-major rewrite starts with nothing rewritten |
| Day08.UpdateStep | src/bin/08.rs:183-194 | rewriting one node moves the rewrite one node on |
| Day08.UpdateNextRow | src/bin/08.rs:183-194 | the end of a row moves the rewrite to the next row |
| Day08.UpdateDone | src/bin/08.rs:183-194 | a rewrite that has passed every row has rewritten the whole map |
| Day08.WithDistances | src/bin/08.rs:182-195 | appending offsets keeps the map's shape |
| Day08.Classified | src/bin/08.rs:197-205 | flagging every node keeps the map's shape |
| Day08.AppendDistances | src/bin/08.rs:185-192 | the inner loop pushes the offsets to every antenna, in order, onto the node |
| Day08.MarkedStep | src/bin/08.rs:209-216 | scanning one node adds it to the flagged positions seen exactly when it is flagged |
| Day08.MarkedNextRow | src/bin/08.rs:209-216 | the end of a row is the start of the next |
| Day08.MarkedAll | src/bin/08.rs:207-218 | once every row is scanned, every flagged position has been seen |
| Day08.FlaggedAreAntinodes | src/bin/08.rs:197-205 | on a freshly read map, offsets then flags mark exactly the antinodes |
| Day08.MarkRow | src/bin/08.rs:69-71 | flagging keeps a row's length |
| Day08.MarkAll | src/bin/08.rs:69-71 | flagging keeps the map's shape |
| Day08.MarkAllAt | src/bin/08.rs:69-71 | a node is flagged where the set says and unchanged elsewhere |
| Day08.SameNodes | src/bin/08.rs:96-99 | maps of one shape with the same nodes are the same map |
| Day08.MarkNothing | src/bin/08.rs:69-71 | flagging no position changes nothing |
| Day08.MarkTwice | src/bin/08.rs:69-71 | flags are only ever set: flagging twice flags the union |
| Day08.MarkOne | src/bin/08.rs:69-71 | `set_antinode` on one node flags that one position |
| Day08.FlaggedIsMarkAll | src/bin/08.rs:69-71 | flagging node by node is flagging the set |
| Day08.FlaggedStep | src/bin/08.rs:225-229 | one more `set_antinode` adds one position to the flagged set |
| Day08.MarkShaped | src/bin/08.rs:69-71 | flagging keeps a rectangular map rectangular, of one size |
| Day08.MarkThrice | src/bin/08.rs:240-249 | flagging in three rounds flags the union |
| Day08.MarkMore | src/bin/08.rs:69-71 | flagging one more position after a set flags the set with it |
| Day08.SetKeeps | src/bin/08.rs:69-71 | flagging one node keeps the map's shape and every position |
| Day08.PairSteps | src/bin/08.rs:238-255 | the four flagging rounds of one pair, in the source's order, flag the whole line through the pair |
| Day08.WalkIsStep | src/bin/08.rs:221-229 | the walk after `t` steps is at the start plus `t` offsets |
| Day08.FirstStepsHas | src/bin/08.rs:225-229 | each of the first `k` positions of the walk is flagged |
| Day08.FirstStepsOnly | src/bin/08.rs:225-229 | only such positions are |
| Day08.RayIsFirstSteps | src/bin/08.rs:220-230 | a walk that leaves the map after `k` steps flags its first `k` positions |
| Day08.Between | src/bin/08.rs:225 | a coordinate between two on-map ones of a walk is on the map |
| Day08.WalkStaysOn | src/bin/08.rs:225 | a walk on the map at its start and after `k - 1` steps was on it throughout |
| Day08.RayHas | src/bin/08.rs:220-230 | `mark_antinodes` flags exactly the on-map positions a whole number of offsets ahead of the antenna |
| Day08.StepBack | src/bin/08.rs:249 | walking the negated offset is walking backwards |
| Day08.LineHas | src/bin/08.rs:238-255 | one pair flags exactly the on-map positions a whole number of their differences from the first antenna |
| Day08.UnionHas | src/bin/08.rs:237-259 | a position is in a union exactly when it is in one of the sets |
| Day08.LinesWith | src/bin/08.rs:237-256 | one line per later antenna |
| Day08.PartnersHas | src/bin/08.rs:237-256 | the loop over the later antennae flags the lines through the antenna and exactly those of its frequency |
| Day08.PartnersSnoc | src/bin/08.rs:237-256 | one more later antenna adds its line when it has the same frequency |
| Day08.PartnersNext | src/bin/08.rs:237-256 | each loop step adds the line through the next antenna of the same frequency |
| Day08.PartnersNone | src/bin/08.rs:233-235 | with no later antenna nothing is flagged |
| Day08.LineInSteps | src/bin/08.rs:240-249 | both antennae and both walks flag the line through the pair |
| Day08.CollinearSplit | src/bin/08.rs:257-259 | a pair either starts at the first antenna or lies among the rest |
| Day08.PartnersCollinear | src/bin/08.rs:237-256 | one level of the recursion flags the positions in line with its antenna and a later one of its frequency |
| Day08.PairCellsHas | src/bin/08.rs:232-260 | the recursion flags exactly the positions in line with two antennae of one frequency |
| Day08.MarkedFresh | src/bin/08.rs:207-218 | on a map with no flag set, the flagged positions are those of the set on the map |
| Day08.CityMap.constructor | src/bin/08.rs:127-156 | `new` holds the nodes of the loaded rows and the antennae they hold |
| Day08.CityMap.ComputeDistances | src/bin/08.rs:182-195 | `compute_distances` appends to every node its offset to each antenna and keeps the antennae |
| Day08.CityMap.ComputeAntinodesPartOne | src/bin/08.rs:197-205 | offsets computed, then every node flagged by whether it holds a doubled pair |
| Day08.CityMap.MarkAntinodes | src/bin/08.rs:220-230 | `mark_antinodes` flags the walk from the antenna until it leaves the map |
| Day08.CityMap.MarkPair | src/bin/08.rs:238-255 | the loop body for one pair flags the line through it |
| Day08.CityMap.ComputeAntinodesRecursive | src/bin/08.rs:232-260 | `compute_antinodes_recursive` flags the lines through every pair of one frequency it reaches |
| Day08.CityMap.ComputeAntinodesPartTwo | src/bin/08.rs:262-267 | the recursion starts at the first antenna |
| Day08.CityMap.CountAntinodes | src/bin/08.rs:207-218 | `count_antinodes` is the number of flagged positions |
| Day08.PartOne | src/bin/08.rs:270-278 | part one is the number of antinodes on the map |
| Day08.MapShaped | src/bin/08.rs:114-125 | a loaded map is a rectangle with a first row and no flags |
| Day08.RowMajorApart | src/bin/08.rs:162-180 | antennae listed row by row stand on different positions on the map |
| Day08.PartTwo | src/bin/08.rs:280-287 | part two is the number of positions on the map in line with two antennae of one frequency |
| Day08.PartTwoCells | src/bin/08.rs:262-267 | on a map with nothing flagged, the recursion flags exactly those positions |
| Day09.Repeat | src/bin/09.rs:39-46 | `k` copies of one block |
| Day09.ExpandLength | src/bin/09.rs:32-53 | the disk has as many blocks as the digits of the map add up to |
| Day09.PushRun | src/bin/09.rs:39-46 | an inner loop appends `count` copies of the block |
| Day09.PushPair | src/bin/09.rs:36-49 | one turn of the outer loop appends the file of digit `i` with the next id and the free run after it, when there is a next digit |
| Day09.Assoc3 | src/bin/09.rs:36-49 | appending in steps is appending at once |
| Day09.Expand | src/bin/09.rs:36-49 | the outer loop builds the expansion of the disk map |
| Day09.NewDisk | src/bin/09.rs:32-53 | `Disk::new` expands the trimmed map: files with increasing ids, each followed by its free run |
| Day09.LastFile | src/bin/09.rs:84-89 | the last file block at or before an index, with only free blocks after it, or none |
| Day09.FindLast | src/bin/09.rs:83-91 | the answer of `find_last_nonfree_block` is never past the index searched from |
| Day09.FindLastFacts | src/bin/09.rs:83-91 | it answers the index before the last file, with that file; a free block at 0 only when there is no file; and it panics exactly when the only file is the first block |
| Day09.FindLastNonfreeBlock | src/bin/09.rs:83-91 | the loop searches down from the index as specified |
| Day09.Optimize | src/bin/09.rs:55-81 | `optimize` fills a fresh disk of free blocks front to back; `None` where it panics |
| Day09.AllFreeMultiset | src/bin/09.rs:59 | a run of free blocks is that many free blocks |
| Day09.CompactInvFile | src/bin/09.rs:67-69 | copying a file block in place keeps the blocks accounted for |
| Day09.CompactInvSkip | src/bin/09.rs:70-76 | a free block left free keeps them accounted for |
| Day09.WriteAt | src/bin/09.rs:68 | writing a block adds it to the output so far |
| Day09.SwapCounts | src/bin/09.rs:70-76 | moving the last file into a gap keeps the blocks accounted for |
| Day09.CompactInvMove | src/bin/09.rs:70-76 | a free block that receives the last file keeps them accounted for |
| Day09.CompactPreserves | src/bin/09.rs:63-79 | the loop never loses or invents a block |
| Day09.CompactPreservesFree | src/bin/09.rs:70-76 | nor on a free block |
| Day09.CompactPreservesMove | src/bin/09.rs:70-76 | nor when a file moves |
| Day09.OptimizedPreserves | src/bin/09.rs:55-81 | a compacted disk is as large as the input and holds the same blocks |
| Day09.OptimizeEmpty | src/bin/09.rs:57 | an empty disk makes `optimize` panic |
| Day09.OptimizeUnderflows | src/bin/09.rs:86 | on `"11"` the search finds the file at index 0 and underflows |
| Day09.OptimizeKeepsGap | src/bin/09.rs:71-75 | on `"111"` the file right after the gap is never moved into it |
| Day09.ExpandSample | src/bin/09.rs:157-175 | `"1120331"` expands to the test's disk |
| Day09.OptimizeSample | src/bin/09.rs:198-217 | that disk compacts to the test's result: only the last file moves |
| Day09.OptimizeKeepsGapUnpacked | src/bin/09.rs:71-75 | the as-written result for `"111"` leaves a free block before a file |
| Day09.FixedInvFile | src/bin/09.rs:67-69 | in the corrected loop, a file copied in place keeps the output packed and the blocks accounted for |
| Day09.FixedInvSkip | src/bin/09.rs:70-76 | a free block with no file after it stays free without unpacking the output |
| Day09.FixedInvMove | src/bin/09.rs:70-76 | a free block that receives the last file, wherever past it that file lies, keeps the output packed |
| Day09.FixedDone | src/bin/09.rs:63-80 | when the pointers cross, the output is packed and holds the blocks of the input |
| Day09.CompactFixedPacked | src/bin/09.rs:63-80 | the corrected loop ends with the blocks of the input, packed |
| Day09.CompactFixedPackedFree | src/bin/09.rs:70-76 | the same from a free block |
| Day09.OptimizedFixedPacked | src/bin/09.rs:55-81 | the corrected compaction keeps every block and leaves no free block before a file block |
| Day09.OptimizedFixedSmall | src/bin/09.rs:55-91 | corrected, `"111"` compacts to `0,1,.` and `"11"` compacts without panicking |
| Day09.ChecksumMonotone | src/bin/09.rs:93-105 | the checksum of a prefix is at most that of the disk |
| Day09.ChecksumAppend | src/bin/09.rs:95-103 | one more block adds its position times its id, or nothing when free |
| Day09.ChecksumSample | src/bin/09.rs:219-224 | the compacted test disk has checksum `0*0 + 3*1 + 1*2 + 1*3 + 2*4 + 2*5 + 2*6` |
| Day09.Checksum | src/bin/09.rs:93-105 | `checksum` is the sum of position times id over the file blocks, and `None` exactly when a checked operation overflows a u64 |
| Day09.BuildHash | src/bin/09.rs:107-118 | `build_hash` maps each block of the disk to its number of occurrences |
| Day09.Counts | src/bin/09.rs:107-118 | the count table holds exactly the blocks of the disk with their multiplicities |
| Day09.SameKeys | src/bin/09.rs:127 | tables with the same blocks are equally large |
| Day09.SubMultisetEqual | src/bin/09.rs:128-135 | counts that agree on one table and sum to the same size agree everywhere |
| Day09.ConsistencyCheckCorrect | src/bin/09.rs:121-136 | `consistency_check` passes exactly on disks that hold the same blocks, and never panics on those |
| Day09.PartOne | src/bin/09.rs:139-147 | part one is the checksum of the compacted disk, its consistency assertion always holds, and `None` stands for the panics |
| Day10.Step | src/bin/10.rs:65-98 | the neighbour across a side, when it is on the map, is one orthogonal step away |
| Day10.StepCovers | src/bin/10.rs:65-98 | every neighbour on the map lies across one of the four sides |
| Day10.TowardFacts | src/bin/10.rs:69-96 | one test of `find_adjacent` reports the neighbour across its side exactly when that neighbour holds the value |
| Day10.FindAdjacentSound | src/bin/10.rs:65-98 | `find_adjacent` reports only neighbours on the map holding the value |
| Day10.FindAdjacentOrder | src/bin/10.rs:65-98 | it reports them west, north, south, east |
| Day10.OrderConcat | src/bin/10.rs:65-98 | each test appends after those of lower rank |
| Day10.FindAdjacentComplete | src/bin/10.rs:65-98 | it reports every neighbour holding the value |
| Day10.UpAtLevel | src/bin/10.rs:112-113 | the neighbours searched next are one level higher |
| Day10.EndsAmongHas | src/bin/10.rs:114-116 | each end found by the loop is found from one of the neighbours |
| Day10.EndsAmongIncludes | src/bin/10.rs:114-116 | what each neighbour finds, the loop finds |
| Day10.EndsSound | src/bin/10.rs:99-119 | every end found is a `9` reached by a climb from the start |
| Day10.ClimbStep | src/bin/10.rs:112-115 | a climb's first step goes to a neighbour the search visits |
| Day10.UpComplete | src/bin/10.rs:112-113 | every neighbour one level up is visited |
| Day10.EndsComplete | src/bin/10.rs:99-119 | every `9` a climb from the start ends on is found |
| Day10.EndsThrough | src/bin/10.rs:114-116 | what a neighbour one level up finds is among what the start finds |
| Day10.ClimbHeight | src/bin/10.rs:99-119 | heights rise by one per step, so no climb is longer than ten |
| Day10.EndsAreReached | src/bin/10.rs:99-119 | the ends found from a position are exactly the `9`s reached by climbs from it |
| Day10.ScoreAtMostNines | src/bin/10.rs:121-126 | a score is at most the number of `9`s on the map |
| Day10.SubsetSize | src/bin/10.rs:121-126 | a subset is no larger than the set |
| Day10.RowZerosHas | src/bin/10.rs:21-25 | the scan of a row left of a column lists exactly the `0`s there |
| Day10.RowZerosOrdered | src/bin/10.rs:21-25 | from left to right |
| Day10.GridZerosHas | src/bin/10.rs:18-28 | the scan of the rows above a row lists exactly their `0`s |
| Day10.GridZerosOrdered | src/bin/10.rs:18-28 | in row-major order |
| Day10.RowMajorAppend | src/bin/10.rs:18-28 | a row after the rows above keeps row-major order |
| Day10.Zeros | src/bin/10.rs:18-28 | the trailheads are exactly the `0`s of the map, each once, in row-major order |
| Day10.ZerosHas | src/bin/10.rs:18-28 | scanning every row lists every `0` |
| Day10.AdjacentExample | src/bin/10.rs:200-203 | on the second example the `4`s next to `(3, 3)` are `(2, 3)` then `(4, 3)` |
| Day10.FindTrailheads | src/bin/10.rs:18-28 | `find_trailheads` lists the trailheads |
| Day10.RowTrailheads | src/bin/10.rs:21-25 | one row of the scan lists its `0`s from left to right |
| Day10.AtLevelPrefix | src/bin/10.rs:114 | a prefix of positions at one level stays at that level |
| Day10.FindEndsRecursive | src/bin/10.rs:99-119 | `find_ends_recursive` adds to the set every `9` reachable from the position |
| Day10.FindEndsAmong | src/bin/10.rs:114-116 | the loop adds the ends of each neighbour in turn |
| Day10.WalkTrailhead | src/bin/10.rs:121-126 | `walk_trailhead` is the number of distinct `9`s reachable |
| Day10.ZerosOnDigits | src/bin/10.rs:18-28 | every trailhead holds a digit |
| Day10.SumScores | src/bin/10.rs:29-36 | `sum_scores` adds the scores of the trailheads |
| Day10.ScoreBound | src/bin/10.rs:29-36 | the sum is at most the number of trailheads times the number of `9`s |
| Day10.PartOne | src/bin/10.rs:129-133 | part one is the sum of the trailhead scores of the trimmed lines |
| Day11.Blink | src/bin/11.rs:17-25 | a stone with an even number of digits becomes two stones, any other one stone |
| Day11.BlinkMatchesText | src/bin/11.rs:16-25 | splitting the decimal text in the middle and parsing the halves is cutting the number at a power of ten; 0 becomes 1, and the others are multiplied by 2024 |
| Day11.FlatMapSnoc | src/bin/11.rs:15-26 | one more stone appends what it becomes |
| Day11.FlatMapSingle | src/bin/11.rs:15-26 | one stone becomes what the rule makes of it |
| Day11.FlatMapAppend | src/bin/11.rs:15-26 | two rows side by side become what each becomes, side by side |
| Day11.TransformLength | src/bin/11.rs:13-28 | a blink adds one stone per stone that splits, so the row never shrinks |
| Day11.BlinksStep | src/bin/11.rs:116-118 | one more blink transforms the row once more |
| Day11.BlinkExample | src/bin/11.rs:143-149 | 0, 1, 999, 10 and 99 become 1, 2024, 2021976, `1 0` and `9 9` |
| Day11.TransformExample | src/bin/11.rs:143-149 | `0 1 10 99 999` becomes `1 2024 1 0 9 9 2021976` |
| Day11.FlatMapFive | src/bin/11.rs:15-26 | a row of five stones becomes what each becomes, in order |
| Day11.RowDescendantsAppend | src/bin/11.rs:30-33 | the descendants of two rows add up |
| Day11.RowDescendantsStep | src/bin/11.rs:30-33 | a row's descendants after `k + 1` blinks are those of its image after `k` |
| Day11.RowDescendantsZero | src/bin/11.rs:30-33 | with no blink left each stone counts once |
| Day11.BlinksLength | src/bin/11.rs:30-33 | after `k` blinks the row holds as many stones as its descendants count, which depends only on the numbers |
| Day11.RowDescendantsOne | src/bin/11.rs:30-33 | one stone's row counts its descendants |
| Day11.RowDescendantsTwo | src/bin/11.rs:30-33 | two stones count their descendants added |
| Day11.SecondExampleBlinks1 | src/bin/11.rs:151-158 | what the small numbers of the `125 17` example become |
| Day11.SecondExampleBlinks2 | src/bin/11.rs:151-158 | what the two-digit numbers and 125 become |
| Day11.SecondExampleBlinks3 | src/bin/11.rs:151-158 | what the three- and four-digit numbers become |
| Day11.SecondExampleBlinks4 | src/bin/11.rs:151-158 | what the long numbers become |
| Day11.SecondExampleFrom253 | src/bin/11.rs:151-158 | 253 becomes 3 stones in four blinks |
| Day11.SecondExampleFrom0 | src/bin/11.rs:151-158 | 0 becomes 4 stones in four blinks |
| Day11.SecondExampleFrom1 | src/bin/11.rs:151-158 | 1 becomes 7 stones in five blinks |
| Day11.SecondExampleFrom7 | src/bin/11.rs:151-158 | 7 becomes 8 stones in five blinks |
| Day11.SecondExampleRoots | src/bin/11.rs:151-158 | 125 becomes 7 stones and 17 becomes 15 in six blinks |
| Day11.SecondExample | src/bin/11.rs:151-158 | `125 17` holds 22 stones after six blinks |
| Day11.Numbers | src/bin/11.rs:6-11 | one number per numeral, its value |
| Day11.Incr | src/bin/11.rs:66-75 | `incr_stones` adds the count to the key, inserting it when absent |
| Day11.Decr | src/bin/11.rs:77-86 | `decr_stones` takes the count from the key; it panics when the key is absent or has fewer stones |
| Day11.Within | src/bin/11.rs:88-106 | the stones whose numbers are processed are no more than the row |
| Day11.WithinAddLength | src/bin/11.rs:88-106 | processing one more number adds its stones |
| Day11.WithinAdd | src/bin/11.rs:88-106 | processing one more number adds, for every number, that many stones times what one stone of it becomes |
| Day11.WithinAddHit | src/bin/11.rs:88-106 | the case of a stone carrying the new number |
| Day11.MulSucc | src/bin/11.rs:93-102 | one more stone contributes once more |
| Day11.WithinAddMiss | src/bin/11.rs:88-106 | the case of a stone carrying another number |
| Day11.OutsideAdd | src/bin/11.rs:88-106 | processing one more number takes its stones out of those still to process |
| Day11.WithinNone | src/bin/11.rs:89 | before any number is processed every stone is still to process |
| Day11.WithinAll | src/bin/11.rs:105 | once every number is processed every stone is |
| Day11.KeysCoverStones | src/bin/11.rs:47-64 | every number of a counted row is a key of the table |
| Day11.StoneStore.constructor | src/bin/11.rs:47-64 | `StoneStore::new` counts the numbers of the text |
| Day11.StoneStore.Transform | src/bin/11.rs:88-106 | `transform` leaves the table counting the blinked row, whatever order the keys are visited in |
| Day11.StoneStore.Len | src/bin/11.rs:108-110 | `len` is the number of stones |
| Day11.CountOneMore | src/bin/11.rs:54-62 | counting one more stone counts the longer row |
| Day11.TracksStart | src/bin/11.rs:89 | the clone starts counting the row itself |
| Day11.TracksEnd | src/bin/11.rs:105 | with every key done the clone counts the blinked row |
| Day11.MoveStep | src/bin/11.rs:90-104 | one more key done keeps the clone on track, and the key still holds all its stones, so `decr_stones` never panics |
| Day11.Move | src/bin/11.rs:92-103 | one key's turn moves its stones to what it becomes |
| Day11.PartOne | src/bin/11.rs:114-127 | part one is the number of stones after 25 blinks, and the table agrees on it |
| Day11.PartTwo | src/bin/11.rs:129-137 | part two is the number of stones after 75 blinks, counted by the table |
| Day12.Set | src/bin/12.rs:120 | writing one plot's id changes that plot and no other |
| Day12.Step | src/bin/12.rs:126-173 | a neighbour across a side is in the grid and one orthogonal step away |
| Day12.StepBack | src/bin/12.rs:132-171 | stepping across a side and back across the opposite side returns to the plot |
| Day12.StepAdjacent | src/bin/12.rs:126-173 | the four sides reach exactly the in-grid plots one step away |
| Day12.Toward | src/bin/12.rs:132-171 | one direction of `adjacent_plots` yields the neighbour exactly when it is unmarked and grows the same plant |
| Day12.Garden.AdjacentPlots | src/bin/12.rs:126-173 | `adjacent_plots` lists only unmarked neighbours of the same plant, and every such neighbour |
| Day12.MarkKeepsFilling | src/bin/12.rs:119-120 | marking a plot with the id being filled keeps every other region complete |
| Day12.MarkKeepsSide | src/bin/12.rs:119-120 | after such a marking each marked plot still faces same-plant plots of its own id only, or unmarked ones while being filled |
| Day12.ClosedStartsFilling | src/bin/12.rs:110-111 | a complete marking is a valid start for filling a new id |
| Day12.FillingEndsClosed | src/bin/12.rs:110-113 | a fill that leaves no open plot of its id is a complete marking |
| Day12.FewerUnmarked | src/bin/12.rs:121-123 | each recursive call of `mark_plots` has fewer unmarked plots left, so the fill terminates |
| Day12.CurrClosed | src/bin/12.rs:121-123 | once every listed neighbour is marked, the plot that started the call has no unmarked same-plant neighbour |
| Day12.OpenBeforeMark | src/bin/12.rs:120 | marking a plot opens no new frontier |
| Day12.GrowsTrans | src/bin/12.rs:121-123 | successive recursive fills compose into one fill |
| Day12.GrowsKeeps | src/bin/12.rs:121-123 | neighbours marked by earlier calls stay marked |
| Day12.GrowsFromMark | src/bin/12.rs:119-124 | the whole call, from before its first marking, is a fill of `id` with the plant of `curr` |
| Day12.JoinedItself | src/bin/12.rs:119-124 | every plot is joined to itself |
| Day12.JoinedStep | src/bin/12.rs:126-173 | a same-plant neighbour of a plot joined to `r` is joined to `r` |
| Day12.JoinedBack | src/bin/12.rs:126-173 | a path of same-plant neighbours walked backwards is still one |
| Day12.JoinedTrans | src/bin/12.rs:119-124 | two such paths end to end make one |
| Day12.ClosedStep | src/bin/12.rs:119-124 | in a complete marking, same-plant neighbours have the same id |
| Day12.JoinedSameId | src/bin/12.rs:119-124 | in a complete marking, plots joined by a same-plant path have the same id |
| Day12.SpreadsStep | src/bin/12.rs:121-123 | what a recursive call marks is joined to its own plot, a neighbour of `curr`, so it is joined to `curr` |
| Day12.SpreadsFromMark | src/bin/12.rs:119-124 | counting `curr`'s own marking, every plot the call marks is joined to `curr` |
| Day12.FillNeighbour | src/bin/12.rs:121-123 | one turn of the loop over the neighbours keeps the fill growing, keeps earlier neighbours marked and marks only plots joined to `curr` |
| Day12.Garden.MarkPlots | src/bin/12.rs:119-124 | `mark_plots` marks `curr` and leaves it with no unmarked same-plant neighbour; marked plots keep their id, new ones get `id` and `curr`'s plant and are joined to `curr` by a same-plant path, no new open plot appears |
| Day12.NumberedSkip | src/bin/12.rs:108-115 | the scan passes over a plot already marked |
| Day12.NumberedFill | src/bin/12.rs:110-113 | filling from an unmarked plot at the cursor starts region `next_id`, whose first plot is that one |
| Day12.NumberedRow | src/bin/12.rs:108-109 | the scan moves from the end of one row to the start of the next |
| Day12.NumberedFillIds | src/bin/12.rs:110-113 | after a fill from the cursor every labelled plot still has the plant of its region's first plot |
| Day12.NumberedFillStarts | src/bin/12.rs:110-113 | the cursor becomes the first plot of the new region, after every earlier first plot |
| Day12.NumberedFillJoined | src/bin/12.rs:110-113 | every labelled plot stays joined to its region's first plot |
| Day12.Garden.FillRegion | src/bin/12.rs:110-113 | one fill from an unmarked plot at the cursor adds that plot as the first of region `next_id` and keeps the scan's invariant one plot further on |
| Day12.NumberedDone | src/bin/12.rs:106-117 | once the scan has passed every plot, the marking is a labelling: complete, numbered by first plots in scan order, each plot joined to its region's first plot |
| Day12.Garden.AssignIds | src/bin/12.rs:106-117 | after `assign_ids` every plot has an id below `max_id`, same-plant neighbours share their id, each region has one plant and region `k` starts at its first plot in scan order, later regions further on, and each plot is joined to its region's first plot |
| Day12.LabellingRegions | src/bin/12.rs:106-124 | in the labelling two plots have the same id exactly when a same-plant path joins them: the ids are the connected regions |
| Day12.StartShared | src/bin/12.rs:106-117 | every first plot of one labelling is a first plot of any other labelling of the same garden |
| Day12.FirstIsLeast | src/bin/12.rs:106-109 | in a list sorted in scan order the first element comes before every other |
| Day12.ScanOrderUnique | src/bin/12.rs:106-109 | two lists sorted in scan order with the same elements are equal |
| Day12.StaysLeftOf | src/bin/12.rs:126-173 | a path of one plant never crosses a column holding none of that plant, since the fill only steps to same-plant neighbours |
| Day12.SeparatedPlots | src/bin/12.rs:119-173 | in `ABA` no same-plant path joins the two `A` plots, since the fill spreads only to same-plant neighbours |
| Day12.SeparatedRegions | src/bin/12.rs:106-124 | so every labelling of `ABA` gives the two `A` plots different ids |
| Day12.LabellingUnique | src/bin/12.rs:106-117 | a garden has just one labelling: the ids and first plots `assign_ids` produces are the only ones |
| Day12.Blank | src/bin/12.rs:21-32 | the new garden has exactly the rows and columns read and no plot marked |
| Day12.Garden.constructor | src/bin/12.rs:21-32 | `Garden::new` keeps the trimmed lines as plants, marks nothing and has no region yet |
| Day12.FenceCount | src/bin/12.rs:34-71 | a plot has at most four fences |
| Day12.Garden.FindAdjacentFence | src/bin/12.rs:34-71 | `find_adjacent_fence` is the number of sides of a plot of the region that face the border or another region, and 0 off the region |
| Day12.Garden.CalcArea | src/bin/12.rs:73-83 | `calc_area` counts the plots of the region |
| Day12.Garden.CalcPerimeter | src/bin/12.rs:85-93 | `calc_perimeter` sums the fences of the region's plots |
| Day12.Garden.CalculateCost | src/bin/12.rs:95-104 | `calculate_cost` is area times perimeter summed over the ids found |
| Day12.Garden.IsPlantWest | src/bin/12.rs:265-270 | a plot's west side is unfenced exactly when its west neighbour is in the region |
| Day12.Garden.IsPlantEast | src/bin/12.rs:271-277 | a plot's east side is unfenced exactly when its east neighbour is in the region |
| Day12.Garden.IsPlantNorth | src/bin/12.rs:278-283 | a plot's north side is unfenced exactly when its north neighbour is in the region |
| Day12.Garden.IsPlantSouth | src/bin/12.rs:284-290 | a plot's south side is unfenced exactly when its south neighbour is in the region |
| Day12.VerticalAt | src/bin/12.rs:181-206 | with the flags saying whether the plot above was fenced on that side, the scan counts exactly the west and east sides beginning at the plot |
| Day12.HorizontalAt | src/bin/12.rs:218-243 | with the flags saying whether the plot to the left was fenced on that side, the scan counts exactly the north and south sides beginning at the plot |
| Day12.Garden.VerticalPlot | src/bin/12.rs:181-206 | one step of the column scan updates the flags to the plot's own fences and counts the sides that begin there |
| Day12.Garden.VerticalEdgesInColumn | src/bin/12.rs:177-207 | one column of the scan counts the vertical sides beginning in that column |
| Day12.Garden.CountVerticalEdges | src/bin/12.rs:175-210 | `count_vertical_edges` is the number of west and east sides of the region |
| Day12.Garden.HorizontalPlot | src/bin/12.rs:218-243 | one step of the row scan updates the flags to the plot's own fences and counts the sides that begin there |
| Day12.Garden.HorizontalEdgesInRow | src/bin/12.rs:213-244 | one row of the scan counts the horizontal sides beginning in that row |
| Day12.Garden.CountHorizontalEdges | src/bin/12.rs:211-247 | `count_horizontal_edges` is the number of north and south sides of the region |
| Day12.ColumnsRows | src/bin/12.rs:175-210 | counting column by column gives the same total as row by row |
| Day12.Garden.CalcNumSides | src/bin/12.rs:248-254 | `calc_num_sides` is the number of straight sides of the region |
| Day12.Garden.CalculateBulkCost | src/bin/12.rs:257-263 | `calculate_bulk_cost` is area times number of sides summed over the ids found |
| Day12.PerimeterAtMostFourTimesArea | src/bin/12.rs:34-93 | a region's perimeter is at most four times its area |
| Day12.SidesAtMostPerimeter | src/bin/12.rs:175-254 | every side begins at a fenced plot, so a region has no more sides than fences |
| Day12.BulkCostAtMostCost | src/bin/12.rs:95-104 | the bulk price (part two) never exceeds the fence price (part one) |
| Day12.UnusedRegion | src/bin/12.rs:320-321 | an id with no plot has area, perimeter and sides 0 |
| Day12.UsedRegion | src/bin/12.rs:73-83 | an id carried by a plot has area at least 1 |
| Day12.TotalAreaCounts | src/bin/12.rs:73-83 | the areas of the ids below `n` sum to the plots labelled below `n` |
| Day12.AreasCoverGarden | src/bin/12.rs:106-117 | once every plot is labelled below `max_id`, the areas of the regions add up to the size of the garden |
| Day12.GridSumAdd | src/bin/12.rs:248-254 | the count of a sum of per-plot terms is the sum of the counts |
| Day12.GridSumAtLeast | src/bin/12.rs:73-83 | a total over the garden is at least any one plot's term |
| Day12.PartOne | src/bin/12.rs:293-299 | part one is the fence price of the regions `assign_ids` found in the garden read, and the fence price of every labelling of that garden into connected regions |
| Day12.PartTwo | src/bin/12.rs:300-306 | part two is the bulk price of the regions `assign_ids` found in the garden read, and the bulk price of every labelling of that garden into connected regions |
| Day13.TrySolve | src/bin/13.rs:105-112 | `try_solve` wins exactly when the presses land on the prize on both axes, and then costs three tokens per A and one per B |
| Day13.TrySolveExample | src/bin/13.rs:250-252 | 80 presses of A and 40 of B win the first example machine for 280 tokens |
| Day13.MinOpt | src/bin/13.rs:88-98 | the kept cost is the lower of the best so far and the new one, present when either is |
| Day13.MinOptAssoc | src/bin/13.rs:86-101 | keeping the cheapest does not depend on how the tries are grouped |
| Day13.BestRowCheapest | src/bin/13.rs:87-100 | for a fixed `a`, the inner loop finds a win exactly when some `b` below the bound wins, and the cheapest such |
| Day13.BestBoxCheapest | src/bin/13.rs:86-101 | the double loop keeps the least cost of all wins inside the bounds, `None` exactly when there is none |
| Day13.Solve | src/bin/13.rs:80-103 | `solve` returns the cheapest win over `a < max_a`, `b < max_b` |
| Day13.SolveCheapest | src/bin/13.rs:80-103 | what `solve` returns is the least cost of the wins inside its bounds, `None` exactly when there is none |
| Day13.SolveMissesBound | src/bin/13.rs:81-87 | the exclusive bounds miss a win: buttons `(1, 1)` and prize `(1, 1)` are won by one press of B, yet `solve` finds nothing |
| Day13.WinFits | src/bin/13.rs:81-82 | a win never takes more presses than fit in the prize |
| Day13.SolveInclusiveCheapest | src/bin/13.rs:80-103 | with the bounds included the search finds a win exactly when one exists, and the cheapest of all wins |
| Day13.OptimizedFlatMachine | src/bin/13.rs:114-136 | `solve_optimized` divides only by the x steps: buttons `(1, 0)` and `(1, 0)` with prize `(2, 0)` are beyond `solve`, and `solve_optimized` wins at cost 2 with no press of A and two of B |
| Day13.PressesFit | src/bin/13.rs:116-125 | below `max_a` the presses of A fit in the prize's x, so the subtraction of `solve_optimized` never underflows |
| Day13.SolveOptimized | src/bin/13.rs:114-136 | `solve_optimized` returns the cost of the first `a` below `prize.x / a.x` whose pair of presses wins |
| Day13.WinPressesB | src/bin/13.rs:125 | a win with `a` presses of A uses exactly the presses of B that `solve_optimized` computes |
| Day13.FirstFromFirst | src/bin/13.rs:124-134 | `solve_optimized` finds a win exactly when one exists below its bound, and the one with the fewest presses of A |
| Day13.Cramer | src/bin/13.rs:105-110 | a win pins the presses of A times the determinant of the buttons, so at most one `a` wins when the buttons are independent |
| Day13.OnlyWin | src/bin/13.rs:80-136 | on a machine with a single win inside the bounds, both solvers return its cost |
| Day13.NoWin | src/bin/13.rs:80-136 | on a machine without a win both solvers return `None` |
| Day13.ExampleFirst | src/bin/13.rs:217-219 | both solvers win the first example machine for 280 tokens |
| Day13.ExampleSecond | src/bin/13.rs:221-223 | neither solver wins the second example machine |
| Day13.ExampleThird | src/bin/13.rs:225-227 | both solvers win the third example machine for 200 tokens |
| Day13.ExampleFourth | src/bin/13.rs:229-231 | neither solver wins the fourth example machine |
| Day13.SolveAll | src/bin/13.rs:147-148 | one `solve` answer per machine, in order |
| Day13.SolveAllOptimized | src/bin/13.rs:159-160 | one `solve_optimized` answer per machine, in order |
| Day13.SolvePartOne | src/bin/13.rs:145-155 | `solve_part_one` adds up what `solve` finds, a machine without a win adding nothing |
| Day13.SolvePartTwo | src/bin/13.rs:157-167 | `solve_part_two` adds up what `solve_optimized` finds |
| Day13.SumFoundBounds | src/bin/13.rs:145-155 | the total is at least each cost found |
| Day13.SumFoundFour | src/bin/13.rs:145-155 | the total over four machines is the sum of their costs found |
| Day13.ExampleCosts | src/bin/13.rs:261-268 | the example costs 280, none, 200 and none total 480 |
| Day13.ExampleTotalOne | src/bin/13.rs:261-268 | `solve_part_one` totals 480 tokens on the four example machines |
| Day13.ExampleTotalTwo | src/bin/13.rs:261-268 | `solve_part_two` totals 480 tokens on the four example machines |
| Day13.Moved | src/bin/13.rs:180-181 | the prize moves by 10000000000000 along both axes, the buttons stay |
| Day13.NewPartTwo | src/bin/13.rs:177-184 | `new_part_two` moves every prize and changes nothing else |
| Day13.MovedMovable | src/bin/13.rs:177-184 | machines `solve` can take stay so after the prizes move |
| Day13.MovedMovesAlongX | src/bin/13.rs:177-184 | machines `solve_optimized` can take, those with non-zero x steps, stay so after the prizes move |
| Day14.Rem | src/bin/14.rs:95-97 | Rust's `%` on `i32` truncates: the remainder has the sign of the dividend, is below the divisor in size and differs from the dividend by a multiple of it |
| Day14.Coordinate | src/bin/14.rs:94-107 | the coordinate `run` computes lands on the floor and is the residue of `seconds * (pos + delta)` modulo the size |
| Day14.Intended | src/bin/14.rs:94-107 | the evidently intended position, `pos + seconds * delta` wrapped, lies on the floor |
| Day14.IntendedStep | src/bin/14.rs:92-109 | the intended position advances by one wrapped step per second |
| Day14.IntendedStart | src/bin/14.rs:92-109 | after no time the intended position is the start |
| Day14.RunFormulaDiffers | src/bin/14.rs:94-97 | the robot at `(2, 4)` with velocity `(2, -3)` on an 11 by 7 floor should be at `(1, 3)` after 5 seconds, but the formula puts it at `(9, 5)` |
| Day14.Advanced | src/bin/14.rs:94-107 | a robot's position after `run` is on the floor |
| Day14.QuadrantsDisjoint | src/bin/14.rs:126-166 | no position is in two quadrants, and the middle column and row are in none |
| Day14.QuadrantsCover | src/bin/14.rs:126-166 | every position on the floor off the middle column and row is in a quadrant |
| Day14.InBox | src/bin/14.rs:111-124 | the robots kept are exactly those whose position lies in the half-open box, with their positions |
| Day14.SafetyZero | src/bin/14.rs:168-174 | the safety factor is zero exactly when some quadrant is empty |
| Day14.ProductZero | src/bin/14.rs:173 | the product of the four counts is zero exactly when one of them is |
| Day14.StartPositions | src/bin/14.rs:81-90 | every robot of the list is a key at its start position, and no other key |
| Day14.AllAdvanced | src/bin/14.rs:92-109 | the same robots, each moved by the formula from its own position |
| Day14.Simulation.constructor | src/bin/14.rs:81-90 | `Simulation::new` keeps the floor and puts each robot at its start |
| Day14.Simulation.Run | src/bin/14.rs:92-109 | `run` moves every robot by the source's formula, independent of the order the map is walked |
| Day14.Simulation.GetRobots | src/bin/14.rs:111-124 | `get_robots` is the robots inside the box |
| Day14.Simulation.GetQuadrantRobots | src/bin/14.rs:126-166 | `get_quadrant_robots` is the robots inside that quadrant's corners |
| Day14.Simulation.ComputeSafetyFactor | src/bin/14.rs:168-174 | `compute_safety_factor` is the product of the four quadrant counts |
| Day14.PartOne | src/bin/14.rs:177-182 | part one is the safety factor of the robots after 100 seconds on a 101 by 103 floor |
| Day14.WholeInputRobots | src/bin/14.rs:51-71 | as written, `Floor::new` collects one robot per line, and every one of them is the input's first robot |
| Day14.SingleRobotSafetyZero | src/bin/14.rs:126-174 | with at most one robot in the position map some quadrant is empty, so the safety factor is zero |
| Day14.WholeInputSafetyZero | src/bin/14.rs:51-71 | as written, the safety factor is zero for every input, every time and every floor |
| Day14.QuadrantHolds | src/bin/14.rs:126-166 | a quadrant holding one of the robots counts at least one |
| Day14.PerLineSafetyPositive | src/bin/14.rs:51-71 | with one robot read per line, robots that end in all four quadrants give a positive safety factor |
| Day15.RowOf | src/bin/15.rs:33-48 | a row has at most one tile per character of its line |
| Day15.RowOfMapChars | src/bin/15.rs:35-47 | a line of map characters gives one tile per character, the one that character stands for |
| Day15.RowOfAppend | src/bin/15.rs:35-47 | reading two pieces of a line one after the other reads the whole line |
| Day15.RowOfUnknown | src/bin/15.rs:44 | a character that stands for no tile adds nothing to the row |
| Day15.LastRobotOrIsLast | src/bin/15.rs:40-43 | the robot read from a line is its last `@`, or the earlier position when the line has none |
| Day15.RobotOfIsLast | src/bin/15.rs:29-50 | the robot is the last `@` of the map row by row, or `(0, 0)` when the map has none |
| Day15.RobotOfUnique | src/bin/15.rs:29-50 | with exactly one `@` on the map the robot is there |
| Day15.TilesOf | src/bin/15.rs:32-50 | one row of tiles per line, in order |
| Day15.ReadStep | src/bin/15.rs:35-47 | reading one more character appends its tile and moves the robot when it is `@` |
| Day15.ReadLine | src/bin/15.rs:32-50 | reading one more line appends its row and takes the last `@` seen |
| Day15.NewWarehouse | src/bin/15.rs:27-57 | `Warehouse::new` reads one row per line, as many rows as lines, as wide as the last line and the robot at the last `@` |
| Day15.ReadRow | src/bin/15.rs:33-47 | one line is read as the tiles of its map characters, the robot at its last `@` (or where it was), and the line's width |
| Day15.RenderRow | src/bin/15.rs:63-73 | a shown row has one character per column |
| Day15.RenderRows | src/bin/15.rs:62-75 | one shown row per row of the warehouse |
| Day15.UnlinesSnoc | src/bin/15.rs:74 | each row is followed by a line break |
| Day15.Display | src/bin/15.rs:60-78 | `Display` writes every row, `@` at the robot and each tile's character elsewhere, each followed by a newline |
| Day15.ReadDrawn | src/bin/15.rs:27-57 | a rectangular map with one `@`, one line per row, is read as its tiles with the robot at the `@` |
| Day15.ShowDrawnRow | src/bin/15.rs:63-73 | each row of such a map is shown as its own line |
| Day15.DisplayWarehouse | src/bin/15.rs:27-78 | reading such a map and displaying it gives back exactly the same text |
| Day15.MovesOf | src/bin/15.rs:97-106 | a moves section is read when every character is a move or a line break, and the program panics exactly when one is not |
| Day15.MovesOfAppend | src/bin/15.rs:97-106 | two pieces of a section are read one after the other |
| Day15.LineBreakSkipped | src/bin/15.rs:103 | a line break anywhere in the moves section changes nothing |
| Day15.FormatMoves | src/bin/15.rs:98-102 | one character per move |
| Day15.MovesOfFormat | src/bin/15.rs:98-102 | moves written one character each are read back as they were |
| Day15.ParseMoves | src/bin/15.rs:96-106 | the loop over the moves section reads exactly the moves, `None` where it panics |
| Day15.SimulationOf | src/bin/15.rs:92-111 | a simulation is loaded only when there are two blank-line-separated sections: the warehouse read from the first, the moves from the second |
| Day15.NewSimulation | src/bin/15.rs:92-111 | `Simulation::new` loads that simulation, `None` where it panics |
| Day15.LoadDrawn | src/bin/15.rs:92-111 | a drawn map, a blank line and a non-empty list of moves are loaded as that map and those moves |
| Day15.LoadWithoutMoves | src/bin/15.rs:93-95 | an empty moves section is no section at all, so indexing the second section panics |
| Day15.PartOne | src/bin/15.rs:114-118 | part one loads the input, renders the warehouse for printing and answers `None` |
| Text.DigitChar | src/bin/11.rs:16-22 | a digit's character reads back as that digit |
| Text.NatToString | src/bin/11.rs:16-22 | `to_string` of a number is a numeral without leading zeros |
| Text.ParseNatToString | src/bin/11.rs:16-22 | printing a number and parsing it back gives the same number |
| Text.ParseNatConcat | src/bin/07.rs:50-52 | the numeral of two numerals written one after the other is the left one shifted by the right one's length, plus the right one |
| Text.NatToStringLength | src/bin/11.rs:13-24 | the numeral of a number has as many characters as the number has digits |
| Text.NatToStringSplit | src/bin/11.rs:16-22 | cutting a numeral before its last `k` digits gives the number divided by `10^k` and the remainder |
| Text.DropKeepDigits | src/bin/11.rs:16-22 | cutting digits off one at a time is division with remainder by a power of ten |
| Text.IndexOf | src/bin/05.rs:59-66 | the first occurrence of a character, or the length when there is none |
| Text.Split | src/bin/05.rs:68-76 | `split` gives at least one piece and no piece holds the separator |
| Text.JoinSplit | src/bin/05.rs:68-76 | joining the pieces of `split` with the separator gives back the text |
| Text.SplitJoin | src/bin/05.rs:68-76 | splitting pieces joined by a separator they lack gives back the pieces |
| Text.SplitTerminator | src/bin/01.rs:10 | `split_terminator` pieces hold no separator |
| Text.SplitOnce | src/bin/07.rs:80 | `split_once` finds a split exactly when the separator occurs, and the text is the part before, the separator and the part after |
| Text.Lines | src/bin/10.rs:54 | `lines` gives no line for empty text and no line holds a line break |
| Text.TrimStart | src/bin/09.rs:33 | the trimmed text is a suffix of the text, starts with no whitespace, and everything cut off is whitespace |
| Text.TrimEnd | src/bin/04.rs:11 | `trim_end` keeps a prefix, ending in no whitespace, and drops only whitespace |
| Text.TrimUnchanged | src/bin/10.rs:56 | text that starts and ends in non-whitespace is its own trim |
| Text.SplitWhitespace | src/bin/11.rs:8 | `split_whitespace` yields only non-empty runs of non-whitespace |
| Text.SplitWhitespaceSpaced | src/bin/11.rs:6-11 | `split_whitespace` gives back the words written with a space before each |
| Text.LinesUnlines | src/bin/10.rs:54 | lines each followed by a line break are read back by `lines` as they were |
| Text.LinesJoin | src/bin/15.rs:32 | non-empty lines joined by line breaks are read back by `lines` as they were |
| Text.IndexOfStr | src/bin/15.rs:93 | the separator matches at the index or the index is the text's length, and it matches at no earlier index, so this is the first match |
| Text.NoMatchBefore | src/bin/15.rs:93 | when the separator does not match at the start, and no match starts before index i after dropping the first character, then no match starts before i + 1 in the whole text |
| Text.SplitStr | src/bin/15.rs:93 | splitting at a string separator gives at least one piece |
| Text.TwoSections | src/bin/15.rs:93-95 | two blank-line-free sections around one blank line split into exactly those two |
| Text.EmptySecondSection | src/bin/15.rs:93-95 | a section followed by a blank line and nothing else is a single section |
| Text.TrimmedLines | src/bin/12.rs:23-30 | one row per line, that line trimmed |
| Text.TrimmedEndLines | src/bin/06.rs:92-96 | one row per line, trailing whitespace removed |

## Left out

- Integer widths: `u64`, `usize`, `i32` and `i64` are unbounded `nat`/`int`. The overflows of sums, products and casts are not modelled, except `checked_*` in the day 9 checksum and `saturating_sub` in day 2, which are written out.
- Text.ParseNat: accepts digits only, while Rust's `u64` parse also accepts a leading `+`.
- Text: characters are taken as ASCII, so a character index is a byte index (days 3 and 4 slice by byte).
- Console output (`print!`, `println!`, `dbg!`, flushes) and the `Display` impls of days 6, 8, 9, 10 and 11: output only. Day 15's `Display` is modelled as the inverse of its parser.
- `advent_of_code::solution!`, `template::read_file` and the tests that read the example files: those files are not part of this model.
- src/bin/16.rs: unfinished (`todo!()`), both parts return `None`.
- The `part_two`s that only return `None` (days 5, 9, 10, 14 and 15), and, for day 15, the simulation of the moves, which the program never runs.
- The tests that expect `None` where the code returns `Some` (src/bin/02.rs:141-150, src/bin/05.rs:166-170): they contradict the code.
- Regex parsing of days 13 and 14 (`Button::parse`, `Prize::parse`, `Machine::new`, `Solver::new`, `Floor::new`, the `part_one`/`part_two` of day 13): a foreign library. The models start from parsed machines and robots. `Floor::new` also matches the whole input rather than each line: "## Findings" records what that does, and `Day14.PartOne` takes the robots of the lines as intended.
- `prime_checker::is_prime` (day 13): a foreign call used only for logging. The scratch test `test_divide_by_two` is left out too.
- Malformed inputs that make a loader panic become `None` (days 4, 5, 8, 9, 15) or a precondition on the part (`WellFormed` in days 1, 2, 7 and 11, `Wide` in days 10 and 12, digits only in day 9).
- Day04.CountXmasInPuzzle: requires `Fits` (no more rows than columns plus one), since the diagonal transforms index out of bounds otherwise.
- Day04: the example counts of whole puzzles are not stated; the examples of single lines and of `is_x_mas` are.
- Day06.Simulation.Run: requires that the guard is not walled in on all four sides. There `tick` turns forever and `run` does not terminate; "## Findings" records this, with `RunFixed` as the run that ends.
- Day06.PartTwo: requires that the start is not trappable: it must not have exactly one open side leading to an empty tile on the map. One column on that tile would wall the guard in, and the source's `run` would not terminate.
- Day06: the cycle example of `test_detect_cycle` (src/bin/06.rs:520-529) and `test_simulation1` (src/bin/06.rs:475-518) are not stated as lemmas; the tick and run properties they check are proved in general.
- Day06: the parallelism noted in the comments is not modelled; the program is sequential.
- Day07: the overflow of `checked_mul` and `checked_add` and of the concatenated numeral's parse is not modelled.
- Day08: nodes are values in a grid (`seq<seq<Node>>`) that the class's methods reassign, not references. `mark_antinodes` walks a local copy that is assigned back afterwards.
- Day08.MarkAntinodes: requires a non-zero offset, on which the source's loop would never end. `ComputeAntinodesRecursive` therefore requires antennae at distinct positions; `RowMajorApart` proves that every map's antennae are.
- Day08.PartOne and Day08.PartTwo: require at least one antenna, since `compute_antinode` and `antennae[0]` panic without one.
- Day09: only `test_new_disk1` (src/bin/09.rs:157-175) is stated as an example; the disk map `"11203311"` of `test_new_disk2` is not.
- Day10: the scores of the test maps are not stated; only the `find_adjacent` example is.
- Day11: the 25-blink example of the tests is not stated; the six-blink one is.
- Day12: the price examples of the tests (140, 772, 80, 236, 368 and the per-region areas and sides) are not stated. Evaluating the prices of a literal garden plot by plot is beyond what the verifier computes in reasonable time; `LabellingUnique` and the contracts of `PartOne` and `PartTwo` pin the answer for every garden instead.
- Day13.Solve: requires non-zero steps for both buttons on both axes (`Movable`), since `solve` divides by all four; `SolveOptimized` requires non-zero x steps only (`MovesAlongX`), the only ones it divides by.
- Day14: `run`'s walk over the `HashMap` is modelled in any order, since each robot's move depends on its own entry only. The `i32` arithmetic of the formula is unbounded.
- Day15.PartOne: requires an input that loads, since `Simulation::new` panics on the others, and a warehouse that `Display` can render, since printing it panics otherwise; it answers `None` like the source.
- Day15.Display: requires `Renderable`: every position of the `height` by `width` box, except the robot's, must hold a tile. `fmt` reads `tiles[y][x]` at each such position and panics where a row is missing or too short.

## Findings

| source | as written | input that shows it | evidently intended | confidence | as-written member | corrected member |
|---|---|---|---|---|---|---|
| src/bin/05.rs:44 | the recursion passes `(u[0], u[1..])`, so after the first page each page is compared only with pages two or more places after it | rule `2\|1`, update `3,1,2`: accepted though 1 comes before 2 | recurse on `(u[1], u[1..])`, so every page is compared with every later page and acceptance is exactly the rules' order | not executed | Day05.NeighboursUnchecked | Day05.IsValidFixedOrdered |
| src/bin/06.rs:385-388, 403-410 | facing a column `tick` turns in place and reports `InProgress`; `run` only stops on `GuardExited` or `GuardCycle`, and a cycle is only an edge walked twice | a guard with columns on all four sides (`.#.`, `#^#`, `.#.`): it turns forever and `run` never returns | report a cycle when the guard can only turn, so `run` ends on every map | not executed | Day06.WalledInSpins | Day06.RunFixedAgrees |
| src/bin/09.rs:71-75, 86 | `find_last_nonfree_block` answers the index before the file and `optimize` moves it only when that index is past the gap, so a file right after a gap never moves | disk map `111`: `0,.,1` stays `0,.,1` | move the last file into the gap whenever it lies past it, leaving no free block before a file | not executed | Day09.OptimizeKeepsGapUnpacked | Day09.OptimizedFixedPacked |
| src/bin/09.rs:86 | `i - 1` on a `usize` underflows when the last file found is at index 0 | disk map `11`: `optimize` panics | answer the file's own index, so a disk whose only file is at the front compacts to itself | not executed | Day09.OptimizeUnderflows | Day09.OptimizedFixedSmall |
| src/bin/13.rs:81-87 | the press counts range over `0..max_a` and `0..max_b`, excluding the bounds | buttons `(1, 1)` and `(1, 1)`, prize `(1, 1)`: one press of B wins, `solve` answers `None` | include `max_a` and `max_b`, so the cheapest of all wins is found | not executed | Day13.SolveMissesBound | Day13.SolveInclusiveCheapest |
| src/bin/14.rs:94-97 | the new coordinate is `(seconds * (pos + delta)) % size` | robot `p=2,4 v=2,-3` on an 11 by 7 floor after 5 seconds: `(9, 5)` | `(pos + seconds * delta) % size`, one wrapped step per second: `(1, 3)` | not executed | Day14.RunFormulaDiffers | Day14.IntendedStep |
| src/bin/14.rs:53-55 | every line runs the pattern on the whole trimmed input, whose first match is always the first robot | any input with two different robots: `Floor::new` lists the first robot once per line, the position map keeps one entry, and the safety factor is 0 | match the pattern on `line`, one robot per line, so robots in all four quadrants give a positive factor | not executed | Day14.WholeInputSafetyZero | Day14.PerLineSafetyPositive |
