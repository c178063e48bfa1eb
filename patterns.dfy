/**
 * The fixed regular expressions of the field extraction (main.py:117-123,
 * 149) and the three `re` operations applied to them: `findall`, `search`,
 * and the `str.strip` done before the search.
 *
 * Each pattern is fixed-shape, so it is modelled by a dedicated matcher that
 * gives the length of the match starting at a position (0 for no match).
 * Digits are ASCII `0`-`9`; whitespace is ` \t\n\r\v\f`; case folding is
 * ASCII.
 */
module Patterns {
  import opened Wrappers

  predicate IsDigit(c: char) { '0' <= c <= '9' }

  predicate IsSpace(c: char)
  {
    c == ' ' || c == '\t' || c == '\n' || c == '\r' || c == '\U{000B}' || c == '\U{000C}'
  }

  predicate AllDigits(s: string) { forall i :: 0 <= i < |s| ==> IsDigit(s[i]) }

  predicate AllSpace(s: string) { forall i :: 0 <= i < |s| ==> IsSpace(s[i]) }

  function ToLower(c: char): char
  {
    if 'A' <= c <= 'Z' then (c as int + 32) as char else c
  }

  /** `s` equals `word` when the letters' case is ignored. */
  predicate EqualsIgnoringCase(s: string, word: string)
  {
    |s| == |word| && forall i :: 0 <= i < |s| ==> ToLower(s[i]) == ToLower(word[i])
  }

  /** The four fixed patterns of the extraction block. */
  datatype Pattern =
    | DobPattern        // (\d{2}[\/\-]\d{2}[\/\-]\d{4}), main.py:117
    | SlashDatePattern  // \d{2}/\d{2}/\d{4}, main.py:149
    | GenderPattern     // (Male|Female|Transgender), case-insensitive, main.py:120
    | AadhaarPattern    // \d{4}\s?\d{4}\s?\d{4}, main.py:123

  // ---------------------------------------------------------------------
  // What a whole match looks like
  // ---------------------------------------------------------------------

  predicate IsDateSeparator(c: char) { c == '/' || c == '-' }

  /** `dd?mm?yyyy` with each `?` a slash or a hyphen. */
  predicate DobShape(t: string)
  {
    && |t| == 10
    && AllDigits(t[0..2]) && IsDateSeparator(t[2])
    && AllDigits(t[3..5]) && IsDateSeparator(t[5])
    && AllDigits(t[6..10])
  }

  /** `dd/mm/yyyy`. */
  predicate SlashDateShape(t: string)
  {
    DobShape(t) && t[2] == '/' && t[5] == '/'
  }

  predicate GenderShape(t: string)
  {
    EqualsIgnoringCase(t, "Male") || EqualsIgnoringCase(t, "Female") || EqualsIgnoringCase(t, "Transgender")
  }

  /** Twelve digits in groups of four, with `a` and `b` (0 or 1) whitespace characters between the groups. */
  predicate AadhaarGrouping(t: string, a: int, b: int)
  {
    && 0 <= a <= 1 && 0 <= b <= 1
    && |t| == 12 + a + b
    && AllDigits(t[0..4])
    && (a == 1 ==> IsSpace(t[4]))
    && AllDigits(t[4 + a..8 + a])
    && (b == 1 ==> IsSpace(t[8 + a]))
    && AllDigits(t[8 + a + b..])
  }

  predicate AadhaarShape(t: string)
  {
    AadhaarGrouping(t, 0, 0) || AadhaarGrouping(t, 0, 1) || AadhaarGrouping(t, 1, 0) || AadhaarGrouping(t, 1, 1)
  }

  predicate Shape(p: Pattern, t: string)
  {
    match p
    case DobPattern => DobShape(t)
    case SlashDatePattern => SlashDateShape(t)
    case GenderPattern => GenderShape(t)
    case AadhaarPattern => AadhaarShape(t)
  }

  // ---------------------------------------------------------------------
  // Matching at one position
  // ---------------------------------------------------------------------

  /** `n` digits start at position `i` of `s`. */
  predicate DigitsAt(s: string, i: nat, n: nat)
  {
    i + n <= |s| && AllDigits(s[i..i + n])
  }

  /** Case-insensitive `word` starts at position `i` of `s`. */
  predicate WordAt(s: string, i: nat, word: string)
  {
    i + |word| <= |s| && EqualsIgnoringCase(s[i..i + |word|], word)
  }

  /** Skips one optional whitespace character, as `\s?` does (greedily). */
  function SkipSpace(s: string, j: nat): (k: nat)
    requires j <= |s|
    ensures j <= k <= |s| && k <= j + 1
    ensures k == j + 1 <==> j < |s| && IsSpace(s[j])
  {
    if j < |s| && IsSpace(s[j]) then j + 1 else j
  }

  /**
   * `\d{4}\s?\d{4}\s?\d{4}` at `i`. Giving up an optional whitespace
   * character can never rescue a failed match, because the next item would
   * then have to match that whitespace character as a digit; so the greedy
   * choice is the only candidate and no backtracking is needed.
   */
  function AadhaarMatchLen(s: string, i: nat): nat
    requires i <= |s|
  {
    if !DigitsAt(s, i, 4) then 0
    else
      var j := SkipSpace(s, i + 4);
      if !DigitsAt(s, j, 4) then 0
      else
        var k := SkipSpace(s, j + 4);
        if !DigitsAt(s, k, 4) then 0 else k + 4 - i
  }

  /** `(Male|Female|Transgender)` at `i`: the alternatives are tried in order. */
  function GenderMatchLen(s: string, i: nat): nat
    requires i <= |s|
  {
    if WordAt(s, i, "Male") then 4
    else if WordAt(s, i, "Female") then 6
    else if WordAt(s, i, "Transgender") then 11
    else 0
  }

  /** The length of the match of `p` that starts at position `i` of `s`; 0 if there is none. */
  function MatchLen(p: Pattern, s: string, i: nat): (n: nat)
    requires i <= |s|
    ensures i + n <= |s|
    ensures n > 0 ==> Shape(p, s[i..i + n])
  {
    match p
    case DobPattern => if i + 10 <= |s| && DobShape(s[i..i + 10]) then 10 else 0
    case SlashDatePattern => if i + 10 <= |s| && SlashDateShape(s[i..i + 10]) then 10 else 0
    case GenderPattern => GenderMatchLen(s, i)
    case AadhaarPattern =>
      var n := AadhaarMatchLen(s, i);
      if n > 0 then AadhaarShapeOfMatch(s, i); n else 0
  }

  lemma AadhaarShapeOfMatch(s: string, i: nat)
    requires i <= |s| && AadhaarMatchLen(s, i) > 0
    ensures i + AadhaarMatchLen(s, i) <= |s|
    ensures AadhaarShape(s[i..i + AadhaarMatchLen(s, i)])
  {
    var j := SkipSpace(s, i + 4);
    var k := SkipSpace(s, j + 4);
    var t := s[i..k + 4];
    var a, b := j - (i + 4), k - (j + 4);
    assert j == i + 4 + a && k == i + 8 + a + b && |t| == 12 + a + b;
    assert t[0..4] == s[i..i + 4];
    assert t[4 + a..8 + a] == s[j..j + 4];
    assert t[8 + a + b..] == s[k..k + 4];
    assert AadhaarGrouping(t, a, b);
  }

  /** Every whole match is non-empty. */
  lemma ShapeNonEmpty(p: Pattern, t: string)
    requires Shape(p, t)
    ensures |t| > 0
  {
    if p.GenderPattern? {
      assert |t| == 4 || |t| == 6 || |t| == 11;
    }
  }

  /**
   * A case-insensitive gender word at `i` is what the alternation matches
   * there: the three words start with different letters.
   */
  lemma GenderComplete(s: string, i: nat, m: nat)
    requires i + m <= |s| && GenderShape(s[i..i + m])
    ensures GenderMatchLen(s, i) == m
  {
    var t := s[i..i + m];
    if EqualsIgnoringCase(t, "Male") {
      assert s[i..i + |"Male"|] == t;
    } else {
      assert ToLower(t[0]) == 'f' || ToLower(t[0]) == 't';
      assert t[0] == s[i] && (i + 4 <= |s| ==> s[i..i + 4][0] == s[i]);
      assert !WordAt(s, i, "Male");
      if EqualsIgnoringCase(t, "Female") {
        assert s[i..i + |"Female"|] == t;
      } else {
        assert ToLower(t[0]) == 't';
        assert i + 6 <= |s| ==> s[i..i + 6][0] == s[i];
        assert !WordAt(s, i, "Female");
        assert s[i..i + |"Transgender"|] == t;
      }
    }
  }

  /**
   * A grouped twelve-digit number at `i` is what the greedy matcher takes:
   * each optional whitespace character of the text is exactly one that
   * `\s?` consumes, since a digit is never whitespace.
   */
  lemma AadhaarComplete(s: string, i: nat, m: nat)
    requires i + m <= |s| && AadhaarShape(s[i..i + m])
    ensures AadhaarMatchLen(s, i) == m
  {
    var t := s[i..i + m];
    if AadhaarGrouping(t, 0, 0) {
      AadhaarGroupingMatched(s, i, m, 0, 0);
    } else if AadhaarGrouping(t, 0, 1) {
      AadhaarGroupingMatched(s, i, m, 0, 1);
    } else if AadhaarGrouping(t, 1, 0) {
      AadhaarGroupingMatched(s, i, m, 1, 0);
    } else {
      AadhaarGroupingMatched(s, i, m, 1, 1);
    }
  }

  /** AadhaarComplete for one choice of the two optional whitespace characters. */
  lemma AadhaarGroupingMatched(s: string, i: nat, m: nat, a: int, b: int)
    requires i + m <= |s| && AadhaarGrouping(s[i..i + m], a, b)
    ensures AadhaarMatchLen(s, i) == m
  {
    var t := s[i..i + m];
    assert t[8 + a + b..] == t[8 + a + b..12 + a + b];
    DigitsOfPart(s, i, m, 0);
    DigitsOfPart(s, i, m, 4 + a);
    DigitsOfPart(s, i, m, 8 + a + b);
    assert s[i + 4 + a..i + 8 + a][0] == s[i + 4 + a];
    assert s[i + 8 + a + b..i + 12 + a + b][0] == s[i + 8 + a + b];
    assert t[4] == s[i + 4] && t[8 + a] == s[i + 8 + a];
    var j := SkipSpace(s, i + 4);
    assert j == i + 4 + a;
    var k := SkipSpace(s, j + 4);
    assert k == i + 8 + a + b;
  }

  /** Four digits at offset `x` of the part of `s` starting at `i` are four digits at `i + x` of `s`. */
  lemma DigitsOfPart(s: string, i: nat, m: nat, x: int)
    requires i + m <= |s| && 0 <= x && x + 4 <= m && AllDigits(s[i..i + m][x..x + 4])
    ensures DigitsAt(s, i + x, 4)
  {
    PartOfPart(s, i, m, x, 4);
  }

  /** A slice of a slice is a slice of the whole. */
  lemma PartOfPart(s: string, i: nat, m: nat, x: int, n: nat)
    requires i + m <= |s| && 0 <= x && x + n <= m
    ensures s[i..i + m][x..x + n] == s[i + x..i + x + n]
  {
    var t := s[i..i + m];
    var u, v := t[x..x + n], s[i + x..i + x + n];
    forall q | 0 <= q < n
      ensures u[q] == v[q]
    {
      assert u[q] == t[x + q];
    }
  }

  /**
   * The other direction of MatchLen's contract: whenever the text at `i`
   * has the whole shape of `p`, the matcher finds a match of that length.
   */
  lemma MatchLenComplete(p: Pattern, s: string, i: nat, m: nat)
    requires i + m <= |s| && Shape(p, s[i..i + m])
    ensures MatchLen(p, s, i) == m
  {
    match p
    case DobPattern =>
    case SlashDatePattern =>
    case GenderPattern => GenderComplete(s, i, m);
    case AadhaarPattern => AadhaarComplete(s, i, m);
  }

  // ---------------------------------------------------------------------
  // re.findall / re.search / str.strip
  // ---------------------------------------------------------------------

  /**
   * `re.findall` from position `i`: try a match at each position; after a
   * match continue right after it, otherwise one position further.
   */
  function FindAllFrom(p: Pattern, s: string, i: nat): (r: seq<string>)
    requires i <= |s|
    ensures forall k :: 0 <= k < |r| ==> Shape(p, r[k])
    decreases |s| - i
  {
    if i == |s| then []
    else
      var n := MatchLen(p, s, i);
      if n > 0 then [s[i..i + n]] + FindAllFrom(p, s, i + n) else FindAllFrom(p, s, i + 1)
  }

  /** `re.findall(pattern, s)`: every non-overlapping match, left to right. */
  function FindAll(p: Pattern, s: string): (r: seq<string>)
    ensures forall k :: 0 <= k < |r| ==> Shape(p, r[k])
  {
    FindAllFrom(p, s, 0)
  }

  /** `re.search` from position `i`: the leftmost match at or after `i`. */
  function SearchFrom(p: Pattern, s: string, i: nat): (r: Option<string>)
    requires i <= |s|
    ensures r.Some? ==> Shape(p, r.value)
    decreases |s| - i
  {
    if i == |s| then None
    else
      var n := MatchLen(p, s, i);
      if n > 0 then Some(s[i..i + n]) else SearchFrom(p, s, i + 1)
  }

  /** `re.search(pattern, s).group()`, or None when nothing matches. */
  function Search(p: Pattern, s: string): (r: Option<string>)
    ensures r.Some? ==> Shape(p, r.value)
  {
    SearchFrom(p, s, 0)
  }

  /** No match of `p` starts anywhere in `s[i..]`. */
  ghost predicate NoMatchFrom(p: Pattern, s: string, i: nat)
    requires i <= |s|
  {
    forall j :: i <= j < |s| ==> MatchLen(p, s, j) == 0
  }

  /** `findall` finds nothing exactly when no position starts a match. */
  lemma {:induction false} FindAllFromEmpty(p: Pattern, s: string, i: nat)
    requires i <= |s|
    ensures FindAllFrom(p, s, i) == [] <==> NoMatchFrom(p, s, i)
    decreases |s| - i
  {
    if i < |s| {
      FindAllFromEmpty(p, s, i + 1);
    }
  }

  /**
   * The first result of `findall` is the match at the leftmost position that
   * starts one: if position `j` starts a match and none does in `[i, j)`.
   */
  lemma {:induction false} FindAllFromFirst(p: Pattern, s: string, i: nat, j: nat)
    requires i <= j < |s|
    requires MatchLen(p, s, j) > 0
    requires forall m :: i <= m < j ==> MatchLen(p, s, m) == 0
    ensures FindAllFrom(p, s, i) != []
    ensures FindAllFrom(p, s, i)[0] == s[j..j + MatchLen(p, s, j)]
    decreases j - i
  {
    if i < j {
      FindAllFromFirst(p, s, i + 1, j);
    }
  }

  /** A text holding the shape of `p` somewhere gives `findall` something to return. */
  lemma FindAllFindsShape(p: Pattern, s: string, j: nat, m: nat)
    requires j + m <= |s| && Shape(p, s[j..j + m])
    ensures FindAll(p, s) != []
  {
    MatchLenComplete(p, s, j, m);
    ShapeNonEmpty(p, s[j..j + m]);
    FindAllFromEmpty(p, s, 0);
  }

  /** `search` returns the first result of `findall`, and nothing when `findall` finds nothing. */
  lemma {:induction false} SearchIsFirstFound(p: Pattern, s: string, i: nat)
    requires i <= |s|
    ensures SearchFrom(p, s, i) == if FindAllFrom(p, s, i) == [] then None else Some(FindAllFrom(p, s, i)[0])
    decreases |s| - i
  {
    if i < |s| && MatchLen(p, s, i) == 0 {
      SearchIsFirstFound(p, s, i + 1);
    }
  }

  /** `s` without its leading whitespace: a suffix of `s` preceded only by whitespace. */
  function StripLeading(s: string): (r: string)
    ensures |r| <= |s| && r == s[|s| - |r|..] && AllSpace(s[..|s| - |r|])
    ensures r != [] ==> !IsSpace(r[0])
  {
    if s != [] && IsSpace(s[0]) then
      var r := StripLeading(s[1..]);
      assert s[..|s| - |r|] == [s[0]] + s[1..][..|s| - 1 - |r|];
      r
    else
      s
  }

  /** `s` without its trailing whitespace: a prefix of `s` followed only by whitespace. */
  function StripTrailing(s: string): (r: string)
    ensures |r| <= |s| && r == s[..|r|] && AllSpace(s[|r|..])
    ensures r != [] ==> !IsSpace(r[|r| - 1])
  {
    if s != [] && IsSpace(s[|s| - 1]) then
      var r := StripTrailing(s[..|s| - 1]);
      assert s[|r|..] == s[..|s| - 1][|r|..] + [s[|s| - 1]];
      r
    else
      s
  }

  /** `r` is `s` with whitespace cut from its two ends only. */
  ghost predicate IsTrimmedFrom(s: string, r: string)
  {
    exists a, b :: 0 <= a <= b <= |s| && r == s[a..b] && AllSpace(s[..a]) && AllSpace(s[b..])
  }

  /**
   * `str.strip()`: the part of `s` between the whitespace at its two ends;
   * what remains neither starts nor ends with whitespace.
   */
  function Strip(s: string): (r: string)
    ensures IsTrimmedFrom(s, r)
    ensures r != [] ==> !IsSpace(r[0]) && !IsSpace(r[|r| - 1])
  {
    var left := StripLeading(s);
    var a := |s| - |left|;
    var r := StripTrailing(left);
    assert r == s[a..a + |r|];
    assert s[a + |r|..] == left[|r|..];
    r
  }

  /** A string that neither starts nor ends with whitespace is left as it is by `strip`. */
  lemma StripKeeps(s: string)
    requires s != [] ==> !IsSpace(s[0]) && !IsSpace(s[|s| - 1])
    ensures Strip(s) == s
  {
  }

  /**
   * main.py:148-150 on a date of birth found by the pattern of main.py:117:
   * after stripping, the slash-only pattern finds the whole match exactly when
   * both separators are slashes, and nothing when either is a hyphen.
   */
  lemma SlashCheckOfDobMatch(t: string)
    requires DobShape(t)
    ensures Search(SlashDatePattern, Strip(t)) == if t[2] == '/' && t[5] == '/' then Some(t) else None
  {
    assert IsDigit(t[0..2][0]) && IsDigit(t[6..10][3]);
    StripKeeps(t);
    assert t[0..10] == t;
    SearchNoRoom(t, 1);
    if t[2] == '/' && t[5] == '/' {
      assert MatchLen(SlashDatePattern, t, 0) == 10;
    } else {
      assert MatchLen(SlashDatePattern, t, 0) == 0;
    }
  }

  lemma {:induction false} SearchNoRoom(t: string, j: nat)
    requires |t| == 10 && 1 <= j <= 10
    ensures SearchFrom(SlashDatePattern, t, j) == None
    decreases 10 - j
  {
    if j < 10 {
      SearchNoRoom(t, j + 1);
    }
  }
}
