/**
 * The parts of Rust's `str` API that the solutions use to read their input:
 * `lines`, `split`, `split_terminator`, `split_whitespace`, `split_once`,
 * `trim`, `trim_end`, `parse::<u64>` on decimal numerals and `format!("{}")`
 * on naturals. Strings are sequences of characters; whitespace is the ASCII
 * part of `char::is_whitespace`.
 */
module Text {
  import opened Wrappers

  predicate IsDigit(c: char) { '0' <= c <= '9' }

  predicate IsWhitespace(c: char)
  {
    c == ' ' || c == '\t' || c == '\n' || c == '\r' || c == '\U{000B}' || c == '\U{000C}'
  }

  /** A non-empty run of decimal digits: what `parse::<u64>()` accepts here. */
  predicate IsNumeral(s: string)
  {
    |s| > 0 && forall i :: 0 <= i < |s| ==> IsDigit(s[i])
  }

  function DigitValue(c: char): (d: nat)
    requires IsDigit(c)
    ensures d < 10
  {
    c as int - '0' as int
  }

  function DigitChar(d: nat): (c: char)
    requires d < 10
    ensures IsDigit(c) && DigitValue(c) == d
  {
    ('0' as int + d) as char
  }

  /** The value of a decimal numeral, most significant digit first; leading zeros allowed. */
  function ParseNat(s: string): nat
    requires IsNumeral(s)
    decreases |s|
  {
    if |s| == 1 then DigitValue(s[0])
    else 10 * ParseNat(s[..|s| - 1]) + DigitValue(s[|s| - 1])
  }

  /** What `parse::<i64>()` accepts here: a numeral with an optional sign. */
  predicate IsIntNumeral(s: string)
  {
    IsNumeral(s) || (|s| > 1 && (s[0] == '-' || s[0] == '+') && IsNumeral(s[1..]))
  }

  /** The value of a signed decimal numeral. */
  function ParseInt(s: string): int
    requires IsIntNumeral(s)
  {
    if IsNumeral(s) then ParseNat(s)
    else if s[0] == '-' then -(ParseNat(s[1..]) as int)
    else ParseNat(s[1..])
  }

  /** `format!("{}", n)`: the shortest decimal numeral of n. */
  function NatToString(n: nat): (s: string)
    ensures IsNumeral(s)
    ensures |s| == 1 || s[0] != '0'
    decreases n
  {
    if n < 10 then [DigitChar(n)] else NatToString(n / 10) + [DigitChar(n % 10)]
  }

  function Pow10(k: nat): (p: nat)
    ensures p >= 1
  {
    if k == 0 then 1 else 10 * Pow10(k - 1)
  }

  /** Printing a natural and parsing it back gives the same natural. */
  lemma {:induction false} ParseNatToString(n: nat)
    ensures ParseNat(NatToString(n)) == n
    decreases n
  {
    if n >= 10 {
      var s := NatToString(n);
      assert s[..|s| - 1] == NatToString(n / 10);
      ParseNatToString(n / 10);
    }
  }

  /** The numeral of a concatenation: the left part shifted by the right part's length. */
  lemma {:induction false} ParseNatConcat(a: string, b: string)
    requires IsNumeral(a) && IsNumeral(b)
    ensures IsNumeral(a + b)
    ensures ParseNat(a + b) == ParseNat(a) * Pow10(|b|) + ParseNat(b)
    decreases |b|
  {
    var ab := a + b;
    assert IsNumeral(ab) by {
      assert forall i :: 0 <= i < |ab| ==> IsDigit(ab[i]);
    }
    if |b| == 1 {
      assert ab[..|ab| - 1] == a;
    } else {
      var b' := b[..|b| - 1];
      var d := DigitValue(b[|b| - 1]);
      assert IsNumeral(b');
      assert ab[..|ab| - 1] == a + b';
      assert ab[|ab| - 1] == b[|b| - 1];
      ParseNatConcat(a, b');
      ShiftDigit(ParseNat(a), Pow10(|b'|), ParseNat(b'), d);
    }
  }

  /** Appending a digit to `x * p + y` shifts both parts. */
  lemma ShiftDigit(x: nat, p: nat, y: nat, d: nat)
    ensures 10 * (x * p + y) + d == x * (10 * p) + (10 * y + d)
  {
  }

  /** The number of decimal digits of n. */
  function NumDigits(n: nat): (d: nat)
    ensures d >= 1
  {
    if n < 10 then 1 else 1 + NumDigits(n / 10)
  }

  /** The numeral of n has as many characters as n has digits. */
  lemma {:induction false} NatToStringLength(n: nat)
    ensures |NatToString(n)| == NumDigits(n)
    decreases n
  {
    if n >= 10 {
      NatToStringLength(n / 10);
    }
  }

  /**
   * Cutting the numeral of n before its last k digits: the part before is
   * n / 10^k and the part after is n % 10^k (leading zeros and all).
   */
  lemma NatToStringSplit(n: nat, k: nat)
    requires 0 < k < |NatToString(n)|
    ensures IsNumeral(NatToString(n)[..|NatToString(n)| - k])
    ensures IsNumeral(NatToString(n)[|NatToString(n)| - k..])
    ensures ParseNat(NatToString(n)[..|NatToString(n)| - k]) == n / Pow10(k)
    ensures ParseNat(NatToString(n)[|NatToString(n)| - k..]) == n % Pow10(k)
  {
    NatToStringHead(n, k);
    NatToStringTail(n, k);
  }

  /** The numeral of n before its last k digits is the numeral of n / 10^k. */
  lemma {:induction false} NatToStringHead(n: nat, k: nat)
    requires 0 < k < |NatToString(n)|
    ensures IsNumeral(NatToString(n)[..|NatToString(n)| - k])
    ensures ParseNat(NatToString(n)[..|NatToString(n)| - k]) == n / Pow10(k)
    decreases k
  {
    var s := NatToString(n);
    if k == 1 {
      NatToStringSplitLast(n);
    } else {
      var s' := NatToString(n / 10);
      assert s == s' + [DigitChar(n % 10)];
      NatToStringHead(n / 10, k - 1);
      assert s[..|s| - k] == s'[..|s'| - (k - 1)];
      DivPow10(n, k - 1);
    }
  }

  /** The last k digits of the numeral of n, read as a number, are n % 10^k. */
  lemma {:induction false} NatToStringTail(n: nat, k: nat)
    requires 0 < k < |NatToString(n)|
    ensures IsNumeral(NatToString(n)[|NatToString(n)| - k..])
    ensures ParseNat(NatToString(n)[|NatToString(n)| - k..]) == n % Pow10(k)
    decreases k, 1
  {
    if k == 1 {
      NatToStringSplitLast(n);
    } else {
      NatToStringTailStep(n, k);
    }
  }

  /** `NatToStringTail` for two digits or more: the last k - 1 digits of n / 10, then the last digit. */
  lemma {:induction false} NatToStringTailStep(n: nat, k: nat)
    requires 1 < k < |NatToString(n)|
    ensures IsNumeral(NatToString(n)[|NatToString(n)| - k..])
    ensures ParseNat(NatToString(n)[|NatToString(n)| - k..]) == n % Pow10(k)
    decreases k, 0
  {
    var s := NatToString(n);
    var s' := NatToString(n / 10);
    assert s == s' + [DigitChar(n % 10)];
    NatToStringTail(n / 10, k - 1);
    var t' := s'[|s'| - (k - 1)..];
    assert s[|s| - k..] == t' + [DigitChar(n % 10)];
    ParseNatSnoc(t', n % 10);
    ModPow10(n, k - 1);
  }

  /** One more digit at the end of a numeral. */
  lemma ParseNatSnoc(t: string, d: nat)
    requires IsNumeral(t) && d < 10
    ensures IsNumeral(t + [DigitChar(d)])
    ensures ParseNat(t + [DigitChar(d)]) == 10 * ParseNat(t) + d
  {
    assert (t + [DigitChar(d)])[..|t|] == t;
  }

  /** The numeral of n without its last digit, and that digit. */
  lemma NatToStringSplitLast(n: nat)
    requires n >= 10
    ensures var s := NatToString(n);
      ParseNat(s[..|s| - 1]) == n / 10 && s[|s| - 1..] == [DigitChar(n % 10)]
  {
    var s := NatToString(n);
    assert s[..|s| - 1] == NatToString(n / 10);
    ParseNatToString(n / 10);
  }

  /** Dropping one digit, then k more: dropping k + 1. */
  lemma DivPow10(n: nat, k: nat)
    ensures n / 10 / Pow10(k) == n / Pow10(k + 1)
  {
    var p := Pow10(k);
    var q := n / 10 / p;
    var r := n / 10 % p;
    assert n / 10 == q * p + r;
    assert n == (q * p + r) * 10 + n % 10;
    assert n == q * (10 * p) + (10 * r + n % 10);
    assert 0 <= 10 * r + n % 10 < 10 * p;
    DivUnique(n, 10 * p, q, 10 * r + n % 10);
  }

  /** The last k + 1 digits: the last k digits of n / 10, then the last digit of n. */
  lemma ModPow10(n: nat, k: nat)
    ensures 10 * (n / 10 % Pow10(k)) + n % 10 == n % Pow10(k + 1)
  {
    var p := Pow10(k);
    var q := n / 10 / p;
    var r := n / 10 % p;
    assert n / 10 == q * p + r;
    assert n == q * (10 * p) + (10 * r + n % 10);
    assert 0 <= 10 * r + n % 10 < 10 * p;
    DivUnique(n, 10 * p, q, 10 * r + n % 10);
  }

  /** n without its last k decimal digits, one digit at a time. */
  function DropDigits(n: nat, k: nat): nat
    decreases k
  {
    if k == 0 then n else DropDigits(n / 10, k - 1)
  }

  /** The last k decimal digits of n, one digit at a time. */
  function KeepDigits(n: nat, k: nat): nat
    decreases k
  {
    if k == 0 then 0 else 10 * KeepDigits(n / 10, k - 1) + n % 10
  }

  /** Cutting the last k digits off digit by digit is dividing by 10^k with remainder. */
  lemma {:induction false} DropKeepDigits(n: nat, k: nat)
    ensures DropDigits(n, k) == n / Pow10(k)
    ensures KeepDigits(n, k) == n % Pow10(k)
    decreases k
  {
    if k > 0 {
      DropKeepDigits(n / 10, k - 1);
      DivPow10(n, k - 1);
      ModPow10(n, k - 1);
    }
  }

  /** Division with remainder has only one answer. */
  lemma DivUnique(n: nat, d: nat, q: nat, r: nat)
    requires 0 <= r < d && n == q * d + r
    ensures n / d == q && n % d == r
  {
    var q', r' := n / d, n % d;
    assert n == q' * d + r';
    if q' > q {
      MulMonotone(q + 1, q', d);
    } else if q' < q {
      MulMonotone(q' + 1, q, d);
    }
  }

  lemma MulMonotone(a: nat, b: nat, d: nat)
    requires a <= b
    ensures a * d <= b * d
  {
  }

  /** Index of the first `c` in `s`, or `|s|` when there is none. */
  function IndexOf(s: string, c: char): (i: nat)
    ensures i <= |s|
    ensures i < |s| ==> s[i] == c
    ensures forall j :: 0 <= j < i ==> s[j] != c
  {
    if |s| == 0 then 0
    else if s[0] == c then 0
    else 1 + IndexOf(s[1..], c)
  }

  /** Joins pieces with a separator: the inverse of `Split`. */
  function Join(parts: seq<string>, c: char): string
    requires |parts| > 0
  {
    if |parts| == 1 then parts[0] else parts[0] + [c] + Join(parts[1..], c)
  }

  /** `s.split(c)`: the pieces between occurrences of `c`; always at least one piece. */
  function Split(s: string, c: char): (parts: seq<string>)
    ensures |parts| >= 1
    ensures forall k, j :: 0 <= k < |parts| && 0 <= j < |parts[k]| ==> parts[k][j] != c
    decreases |s|
  {
    var i := IndexOf(s, c);
    if i == |s| then [s] else [s[..i]] + Split(s[i + 1..], c)
  }

  /** Splitting and joining again gives back the input. */
  lemma {:induction false} JoinSplit(s: string, c: char)
    ensures Join(Split(s, c), c) == s
    decreases |s|
  {
    var i := IndexOf(s, c);
    if i < |s| {
      var rest := Split(s[i + 1..], c);
      var parts := [s[..i]] + rest;
      assert Split(s, c) == parts;
      assert parts[1..] == rest;
      assert Join(parts, c) == s[..i] + [c] + Join(rest, c);
      JoinSplit(s[i + 1..], c);
      assert s == s[..i] + [c] + s[i + 1..];
    }
  }

  /** The first `c` of `a + [c] + b` is the one after `a` when `a` has none. */
  lemma IndexOfAfter(a: string, c: char, b: string)
    requires c !in a
    ensures IndexOf(a + [c] + b, c) == |a|
  {
    var s := a + [c] + b;
    assert s[|a|] == c;
    assert forall j :: 0 <= j < |a| ==> s[j] == a[j];
  }

  /** Joining pieces that hold no separator and splitting again gives back the pieces. */
  lemma {:induction false} SplitJoin(parts: seq<string>, c: char)
    requires |parts| > 0 && forall k :: 0 <= k < |parts| ==> c !in parts[k]
    ensures Split(Join(parts, c), c) == parts
  {
    if |parts| == 1 {
      assert IndexOf(parts[0], c) == |parts[0]|;
    } else {
      var tail := parts[1..];
      assert forall k :: 0 <= k < |tail| ==> c !in tail[k] by {
        forall k | 0 <= k < |tail| ensures c !in tail[k] {
          assert tail[k] == parts[k + 1];
        }
      }
      SplitJoin(tail, c);
      SplitCons(parts[0], c, Join(tail, c));
      assert [parts[0]] + tail == parts;
    }
  }

  /** A piece without the separator, then the separator: the piece is split off first. */
  lemma SplitCons(a: string, c: char, rest: string)
    requires c !in a
    ensures Split(a + [c] + rest, c) == [a] + Split(rest, c)
  {
    var s := a + [c] + rest;
    IndexOfAfter(a, c, rest);
    assert s[..|a|] == a && s[|a| + 1..] == rest;
  }

  /** `s.split_terminator(c)`: like `split`, without the empty piece after a final `c`. */
  function SplitTerminator(s: string, c: char): (parts: seq<string>)
    ensures forall k, j :: 0 <= k < |parts| && 0 <= j < |parts[k]| ==> parts[k][j] != c
  {
    var parts := Split(s, c);
    if parts[|parts| - 1] == [] then parts[..|parts| - 1] else parts
  }

  /** `s.split_once(c)`: the text before and after the first `c`, if any. */
  function SplitOnce(s: string, c: char): (r: Option<(string, string)>)
    ensures r.None? <==> c !in s
    ensures r.Some? ==> r.value.0 + [c] + r.value.1 == s && c !in r.value.0
  {
    var i := IndexOf(s, c);
    if i == |s| then None
    else
      assert s == s[..i] + [c] + s[i + 1..];
      Some((s[..i], s[i + 1..]))
  }

  /** A line without its terminator: one `\r` before the `\n` is dropped too. */
  function StripCarriageReturn(line: string): string
  {
    if |line| > 0 && line[|line| - 1] == '\r' then line[..|line| - 1] else line
  }

  /**
   * `s.lines()`: the text split at each `\n` (with a `\r` before it removed);
   * a final line terminator does not start another line.
   */
  function Lines(s: string): (lines: seq<string>)
    ensures s == [] <==> lines == []
    ensures forall k, j :: 0 <= k < |lines| && 0 <= j < |lines[k]| ==> lines[k][j] != '\n'
    decreases |s|
  {
    if s == [] then []
    else
      var i := IndexOf(s, '\n');
      if i == |s| then [s] else [StripCarriageReturn(s[..i])] + Lines(s[i + 1..])
  }

  /** `s.trim_start()`. */
  function TrimStart(s: string): (r: string)
    ensures |r| <= |s| && r == s[|s| - |r|..]
    ensures r == [] || !IsWhitespace(r[0])
    ensures forall j :: 0 <= j < |s| - |r| ==> IsWhitespace(s[j])
  {
    if |s| > 0 && IsWhitespace(s[0]) then TrimStart(s[1..]) else s
  }

  /** `s.trim_end()`. */
  function TrimEnd(s: string): (r: string)
    ensures |r| <= |s| && r == s[..|r|]
    ensures r == [] || !IsWhitespace(r[|r| - 1])
    ensures forall j :: |r| <= j < |s| ==> IsWhitespace(s[j])
  {
    if |s| > 0 && IsWhitespace(s[|s| - 1]) then TrimEnd(s[..|s| - 1]) else s
  }

  /** `s.trim()`. */
  function Trim(s: string): string
  {
    TrimEnd(TrimStart(s))
  }

  /** Text that starts and ends in non-whitespace is its own trim. */
  lemma TrimUnchanged(s: string)
    requires s != [] && !IsWhitespace(s[0]) && !IsWhitespace(s[|s| - 1])
    ensures Trim(s) == s
  {
    assert TrimStart(s) == s;
  }

  /** Length of the longest prefix of `s` without whitespace. */
  function WordLength(s: string): (n: nat)
    ensures n <= |s|
    ensures forall j :: 0 <= j < n ==> !IsWhitespace(s[j])
    ensures n < |s| ==> IsWhitespace(s[n])
  {
    if |s| == 0 || IsWhitespace(s[0]) then 0 else 1 + WordLength(s[1..])
  }

  /** A non-empty run of non-whitespace characters. */
  predicate IsWord(w: string)
  {
    |w| > 0 && forall j :: 0 <= j < |w| ==> !IsWhitespace(w[j])
  }

  /** `s.split_whitespace()`: the maximal non-empty runs of non-whitespace characters. */
  function SplitWhitespace(s: string): (words: seq<string>)
    ensures forall k :: 0 <= k < |words| ==> IsWord(words[k])
    decreases |s|
  {
    if s == [] then []
    else if IsWhitespace(s[0]) then SplitWhitespace(s[1..])
    else
      var n := WordLength(s);
      assert IsWord(s[..n]);
      [s[..n]] + SplitWhitespace(s[n..])
  }

  /** Words each preceded by one space: `" 1 2 3"` for `["1", "2", "3"]`. */
  function Spaced(words: seq<string>): string
  {
    if words == [] then [] else [' '] + words[0] + Spaced(words[1..])
  }

  /** A word followed by whitespace or by nothing is read whole. */
  lemma {:induction false} WordLengthWord(w: string, rest: string)
    requires IsWord(w) && (rest == [] || IsWhitespace(rest[0]))
    ensures WordLength(w + rest) == |w|
    decreases |w|
  {
    if |w| > 1 {
      assert (w + rest)[1..] == w[1..] + rest;
      WordLengthWord(w[1..], rest);
    } else {
      assert (w + rest)[1..] == rest;
    }
  }

  /** `split_whitespace` gives back the words that `Spaced` wrote. */
  lemma {:induction false} SplitWhitespaceSpaced(words: seq<string>)
    requires forall k :: 0 <= k < |words| ==> IsWord(words[k])
    ensures SplitWhitespace(Spaced(words)) == words
    decreases |words|
  {
    if words != [] {
      var w, rest := words[0], Spaced(words[1..]);
      var s := [' '] + w + rest;
      assert s[1..] == w + rest;
      assert rest == [] || rest[0] == ' ';
      WordLengthWord(w, rest);
      assert (w + rest)[..|w|] == w && (w + rest)[|w|..] == rest;
      SplitWhitespaceSpaced(words[1..]);
      assert [w] + words[1..] == words;
    }
  }

  /** `Spaced` text of some words ends in a character of the last word. */
  lemma {:induction false} SpacedEnd(words: seq<string>)
    requires forall k :: 0 <= k < |words| ==> IsWord(words[k])
    requires words != []
    ensures |Spaced(words)| > 0 && !IsWhitespace(Spaced(words)[|Spaced(words)| - 1])
    decreases |words|
  {
    if |words| > 1 {
      SpacedEnd(words[1..]);
    } else {
      assert Spaced(words[1..]) == [];
    }
  }

  /** `Spaced` numerals hold only spaces and digits. */
  lemma {:induction false} SpacedNumerals(words: seq<string>)
    requires forall k :: 0 <= k < |words| ==> IsNumeral(words[k])
    ensures forall j :: 0 <= j < |Spaced(words)| ==> Spaced(words)[j] == ' ' || IsDigit(Spaced(words)[j])
    decreases |words|
  {
    if words != [] {
      SpacedNumerals(words[1..]);
      var s := Spaced(words);
      assert s == [' '] + words[0] + Spaced(words[1..]);
      forall j | 0 <= j < |s| ensures s[j] == ' ' || IsDigit(s[j]) {
        if 1 <= j < 1 + |words[0]| {
          assert s[j] == words[0][j - 1];
        } else if j > |words[0]| {
          assert s[j] == Spaced(words[1..])[j - 1 - |words[0]|];
        }
      }
    }
  }

  /** The first `c` of `a + [c] + b`, when `a` has none, is the one after `a`. */
  lemma SplitOnceAt(a: string, c: char, b: string)
    requires c !in a
    ensures SplitOnce(a + [c] + b, c) == Some((a, b))
  {
    var s := a + [c] + b;
    assert s[|a|] == c;
    var i := IndexOf(s, c);
    assert i <= |a|;
    assert s[..|a|] == a && s[|a| + 1..] == b;
  }

  /** A line without `\n` and not ending in `\r`, followed by a `\n`, is read as it is. */
  lemma LinesCons(line: string, rest: string)
    requires '\n' !in line && (line == [] || line[|line| - 1] != '\r')
    ensures Lines(line + ['\n'] + rest) == [line] + Lines(rest)
  {
    var s := line + ['\n'] + rest;
    assert s[|line|] == '\n';
    assert IndexOf(s, '\n') <= |line|;
    assert s[..|line|] == line && s[|line| + 1..] == rest;
  }

  /** A last line without `\n` and not ending in `\r` is read as it is. */
  lemma LinesLast(line: string)
    requires '\n' !in line && line != [] && line[|line| - 1] != '\r'
    ensures Lines(line) == [line]
  {
    assert IndexOf(line, '\n') == |line|;
  }

  /** Each line followed by a `\n`: what `lines` reads back. */
  function Unlines(lines: seq<string>): string
  {
    if lines == [] then [] else lines[0] + ['\n'] + Unlines(lines[1..])
  }

  /** A line as `lines` yields it: no `\n`, and no `\r` at its end. */
  predicate IsLine(line: string)
  {
    '\n' !in line && (line == [] || line[|line| - 1] != '\r')
  }

  lemma {:induction false} LinesUnlines(lines: seq<string>)
    requires forall k :: 0 <= k < |lines| ==> IsLine(lines[k])
    ensures Lines(Unlines(lines)) == lines
  {
    if lines != [] {
      LinesCons(lines[0], Unlines(lines[1..]));
      LinesUnlines(lines[1..]);
      assert [lines[0]] + lines[1..] == lines;
    }
  }

  /** Index of the first occurrence of `sep` in `s`, or `|s|` when there is none. */
  function IndexOfStr(s: string, sep: string): (i: nat)
    requires |sep| > 0
    ensures i <= |s|
    ensures i < |s| ==> i + |sep| <= |s| && s[i..i + |sep|] == sep
    ensures forall j :: 0 <= j < i ==> !MatchAt(s, sep, j)
    decreases |s|
  {
    if |s| < |sep| then |s|
    else if s[..|sep|] == sep then 0
    else
      var i := IndexOfStr(s[1..], sep);
      NoMatchBefore(s, sep, i);
      if i == |s| - 1 then |s|
      else
        assert s[1..][i..i + |sep|] == s[i + 1..i + 1 + |sep|];
        i + 1
  }

  /** `sep` occurs in `s` at index `j`. */
  predicate MatchAt(s: string, sep: string, j: nat)
  {
    j + |sep| <= |s| && s[j..j + |sep|] == sep
  }

  /** No match of `sep` starts before `i + 1` in `s` when none starts at 0 nor before `i` in `s[1..]`. */
  lemma NoMatchBefore(s: string, sep: string, i: nat)
    requires |sep| > 0 && |s| >= |sep| && s[..|sep|] != sep
    requires forall j :: 0 <= j < i ==> !MatchAt(s[1..], sep, j)
    ensures forall j :: 0 <= j < i + 1 ==> !MatchAt(s, sep, j)
  {
    forall j | 0 <= j < i + 1
      ensures !MatchAt(s, sep, j)
    {
      if j == 0 {
        assert s[j..j + |sep|] == s[..|sep|];
      } else if j + |sep| <= |s| {
        assert !MatchAt(s[1..], sep, j - 1);
        assert s[1..][j - 1..j - 1 + |sep|] == s[j..j + |sep|];
      }
    }
  }

  /** `s.split(sep)` on a string separator, matches taken left to right without overlap. */
  function SplitStr(s: string, sep: string): (parts: seq<string>)
    requires |sep| > 0
    ensures |parts| >= 1
    decreases |s|
  {
    var i := IndexOfStr(s, sep);
    if i == |s| then [s] else [s[..i]] + SplitStr(s[i + |sep|..], sep)
  }

  /** `s.split_terminator(sep)` on a string separator. */
  function SplitTerminatorStr(s: string, sep: string): seq<string>
    requires |sep| > 0
  {
    var parts := SplitStr(s, sep);
    if parts[|parts| - 1] == [] then parts[..|parts| - 1] else parts
  }

  /** `s` holds no blank line: no two line breaks in a row. */
  predicate NoDoubleNewline(s: string)
  {
    forall i :: 0 <= i < |s| - 1 ==> !(s[i] == '\n' && s[i + 1] == '\n')
  }

  /** Text without a blank line, holding nothing of `\n\n`. */
  lemma {:induction false} NoDoubleNewlineAbsent(s: string)
    requires NoDoubleNewline(s)
    ensures IndexOfStr(s, "\n\n") == |s|
    decreases |s|
  {
    if |s| >= 2 {
      assert s[..2] != "\n\n" by {
        assert !(s[0] == '\n' && s[1] == '\n');
      }
      NoDoubleNewlineAbsent(s[1..]);
    }
  }

  /** The first `\n\n` of `a + "\n\n" + b` is the one after `a` when `a` has none and does not end in `\n`. */
  lemma {:induction false} IndexOfDoubleNewline(a: string, b: string)
    requires NoDoubleNewline(a) && (a == [] || a[|a| - 1] != '\n')
    ensures IndexOfStr(a + "\n\n" + b, "\n\n") == |a|
    decreases |a|
  {
    var s := a + "\n\n" + b;
    if a == [] {
      assert s[..2] == "\n\n";
    } else {
      assert s[..2] != "\n\n" by {
        assert s[0] == a[0];
        if |a| >= 2 {
          assert s[1] == a[1];
          assert !(a[0] == '\n' && a[1] == '\n');
        }
        assert !(s[0] == '\n' && s[1] == '\n');
        assert s[..2][0] == s[0] && s[..2][1] == s[1];
      }
      assert s[1..] == a[1..] + "\n\n" + b;
      IndexOfDoubleNewline(a[1..], b);
    }
  }

  /** Lines without `\n`, none empty and none ending in `\r`, joined by `\n`, are read back by `lines`. */
  lemma {:induction false} LinesJoin(lines: seq<string>)
    requires |lines| > 0
    requires forall k :: 0 <= k < |lines| ==> IsLine(lines[k]) && lines[k] != []
    ensures Lines(Join(lines, '\n')) == lines
  {
    if |lines| == 1 {
      LinesLast(lines[0]);
    } else {
      LinesJoin(lines[1..]);
      LinesCons(lines[0], Join(lines[1..], '\n'));
      assert [lines[0]] + lines[1..] == lines;
    }
  }

  /** Non-empty lines without `\n` joined by `\n` hold no blank line and do not end in `\n`. */
  lemma {:induction false} JoinNoDoubleNewline(lines: seq<string>)
    requires |lines| > 0
    requires forall k :: 0 <= k < |lines| ==> '\n' !in lines[k] && lines[k] != []
    ensures NoDoubleNewline(Join(lines, '\n'))
    ensures Join(lines, '\n') != [] && Join(lines, '\n')[|Join(lines, '\n')| - 1] != '\n'
  {
    var s := Join(lines, '\n');
    if |lines| == 1 {
      assert s == lines[0];
      assert s[|s| - 1] in lines[0];
      forall i | 0 <= i < |s| - 1 ensures !(s[i] == '\n' && s[i + 1] == '\n') {
        assert s[i] in lines[0];
      }
    } else {
      var rest := Join(lines[1..], '\n');
      JoinNoDoubleNewline(lines[1..]);
      var first := lines[0];
      assert s == first + ['\n'] + rest;
      forall i | 0 <= i < |s| - 1 ensures !(s[i] == '\n' && s[i + 1] == '\n') {
        if i < |first| {
          assert s[i] == first[i];
          assert s[i] in first;
        } else if i == |first| {
          assert s[i + 1] == rest[0];
        } else {
          assert s[i] == rest[i - |first| - 1] && s[i + 1] == rest[i - |first|];
        }
      }
      assert s[|s| - 1] == rest[|rest| - 1];
    }
  }

  /** Two sections without blank lines, the second not empty, separated by one blank line. */
  lemma TwoSections(a: string, b: string)
    requires NoDoubleNewline(a) && (a == [] || a[|a| - 1] != '\n')
    requires NoDoubleNewline(b) && b != []
    ensures SplitTerminatorStr(a + "\n\n" + b, "\n\n") == [a, b]
  {
    var s := a + "\n\n" + b;
    IndexOfDoubleNewline(a, b);
    assert s[..|a|] == a && s[|a| + 2..] == b;
    NoDoubleNewlineAbsent(b);
    assert SplitStr(b, "\n\n") == [b];
    assert SplitStr(s, "\n\n") == [a] + SplitStr(b, "\n\n");
  }

  /** A first section followed by an empty second one is a single section. */
  lemma EmptySecondSection(a: string)
    requires NoDoubleNewline(a) && (a == [] || a[|a| - 1] != '\n')
    ensures |SplitTerminatorStr(a + "\n\n", "\n\n")| == 1
  {
    IndexOfDoubleNewline(a, []);
    assert a + "\n\n" + [] == a + "\n\n";
    assert (a + "\n\n")[|a| + 2..] == [];
    assert SplitStr([], "\n\n") == [[]];
    assert SplitStr(a + "\n\n", "\n\n") == [a, []];
  }

  /** The lines of `input`, each trimmed: a grid of characters, one row per line. */
  function TrimmedLines(input: string): (rows: seq<string>)
    ensures |rows| == |Lines(input)| && forall i :: 0 <= i < |rows| ==> rows[i] == Trim(Lines(input)[i])
  {
    seq(|Lines(input)|, i requires 0 <= i < |Lines(input)| => Trim(Lines(input)[i]))
  }

  /** The rows have a first row and every row is as long as it. */
  predicate Uniform(rows: seq<string>)
  {
    |rows| > 0 && forall i :: 0 <= i < |rows| ==> |rows[i]| == |rows[0]|
  }

  /** The lines of the input with trailing whitespace removed. */
  function TrimmedEndLines(input: string): (rows: seq<string>)
    ensures |rows| == |Lines(input)| && forall i :: 0 <= i < |rows| ==> rows[i] == TrimEnd(Lines(input)[i])
  {
    seq(|Lines(input)|, i requires 0 <= i < |Lines(input)| => TrimEnd(Lines(input)[i]))
  }

  /**
   * A grid of characters, one row per line with trailing whitespace removed,
   * as days 4 and 8 load it: the solutions panic when there is no line or
   * when a row is not as long as the first, and those inputs give `None`.
   */
  function LoadGrid(input: string): (r: Option<seq<string>>)
    ensures r.Some? <==> Uniform(TrimmedEndLines(input))
    ensures r.Some? ==> r.value == TrimmedEndLines(input)
  {
    var rows := TrimmedEndLines(input);
    if |rows| == 0 then None
    else if exists i :: 0 <= i < |rows| && |rows[i]| != |rows[0]| then None
    else Some(rows)
  }
}
