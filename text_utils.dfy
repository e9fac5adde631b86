/** The text utilities (lib/beniya/text_utils.rb): display width with an East-Asian
    heuristic, truncation to a cell width, padding to a cell width and the choice of a
    line-break point. */
module TextUtils {
  import opened Strings
  import Layout

  const FullwidthCharWidth := 2
  const HalfwidthCharWidth := 1
  const MultibyteThreshold := 1
  const EllipsisMinWidth := 3
  const Ellipsis := "..."

  /** The wide ranges the code names: CJK symbols and punctuation, hiragana, katakana,
      CJK unified ideographs up to U+9FAF, and the half/full-width forms block. */
  predicate InWideRange(c: char) {
    var n := c as int;
    (0x3000 <= n <= 0x303F) || (0x3040 <= n <= 0x309F) || (0x30A0 <= n <= 0x30FF)
    || (0x4E00 <= n <= 0x9FAF) || (0xFF00 <= n <= 0xFFEF)
  }

  predicate InPrintableAscii(c: char) {
    0x20 <= c as int <= 0x7E
  }

  /** Cells of one character: the wide ranges, then printable ASCII, then "more than one
      UTF-8 byte". Every named wide range lies above U+007F, so the rule amounts to
      "two cells exactly for code points from U+0080 on". */
  function CharWidth(c: char): (w: nat)
    ensures 1 <= w <= 2
    ensures w == 2 <==> c as int >= 0x80
  {
    if InWideRange(c) then FullwidthCharWidth
    else if InPrintableAscii(c) then HalfwidthCharWidth
    else if Utf8Size(c) > MultibyteThreshold then FullwidthCharWidth
    else HalfwidthCharWidth
  }

  lemma CharWidthIsCellRule()
    ensures Layout.CellRule(CharWidth)
  {
  }

  /** `display_width`: the sum of the characters' cells. */
  function DisplayWidth(s: string): (w: nat)
    ensures |s| <= w <= 2 * |s|
    ensures s == [] ==> w == 0
  {
    CharWidthIsCellRule();
    Layout.WidthBounds(CharWidth, s);
    Layout.Width(CharWidth, s)
  }

  lemma DisplayWidthOne(c: char)
    ensures DisplayWidth([c]) == CharWidth(c)
  {
    assert [c][1..] == [];
    assert Layout.Width(CharWidth, [c]) == CharWidth(c) + Layout.Width(CharWidth, []);
  }

  /** Width is additive, so a string is as wide as its halves together. */
  lemma DisplayWidthConcat(a: string, b: string)
    ensures DisplayWidth(a + b) == DisplayWidth(a) + DisplayWidth(b)
  {
    Layout.WidthConcat(CharWidth, a, b);
  }

  /** Number of characters from U+0080 on. */
  function NonAsciiCount(s: string): nat {
    if s == [] then 0 else (if s[0] as int >= 0x80 then 1 else 0) + NonAsciiCount(s[1..])
  }

  /** An independent reading of the width: one cell per character plus one per
      non-ASCII character. */
  lemma {:induction false} DisplayWidthCountsNonAscii(s: string)
    ensures DisplayWidth(s) == |s| + NonAsciiCount(s)
  {
    if s != [] {
      DisplayWidthCountsNonAscii(s[1..]);
    }
  }

  lemma {:induction false} NonAsciiSplit(a: string, b: string)
    ensures NonAsciiCount(a + b) == NonAsciiCount(a) + NonAsciiCount(b)
  {
    if a != [] {
      assert (a + b)[1..] == a[1..] + b;
      NonAsciiSplit(a[1..], b);
    } else {
      assert a + b == b;
    }
  }

  lemma {:induction false} AsciiNonAsciiCount(s: string)
    requires IsAscii(s)
    ensures NonAsciiCount(s) == 0
  {
    if s != [] {
      AsciiNonAsciiCount(s[1..]);
    }
  }

  lemma {:induction false} WideNonAsciiCount(s: string)
    requires forall i :: 0 <= i < |s| ==> s[i] as int >= 0x80
    ensures NonAsciiCount(s) == |s|
  {
    if s != [] {
      WideNonAsciiCount(s[1..]);
    }
  }

  // ---------------------------------------------------------------- truncate_to_width

  /** `truncate_to_width`, step by step as the code does it, including its ellipsis test. */
  method TruncateToWidth(s: string, maxWidth: int) returns (r: string)
    ensures r == Layout.Truncate(CharWidth, s, maxWidth)
  {
    if DisplayWidth(s) <= maxWidth {
      return s;
    }
    CharWidthIsCellRule();
    r := "";
    var currentWidth := 0;
    var i := 0;
    while i < |s|
      invariant i <= Layout.Fit(CharWidth, s, maxWidth)
      invariant r == s[..i]
      invariant currentWidth == DisplayWidth(s[..i])
    {
      var c := s[i];
      var charWidth := DisplayWidth([c]);
      DisplayWidthOne(c);
      Layout.WidthStep(CharWidth, s, i);
      Layout.FitReach(CharWidth, s, maxWidth, i + 1);
      if currentWidth + charWidth > maxWidth {
        break;
      }
      r := r + [c];
      currentWidth := currentWidth + charWidth;
      i := i + 1;
    }
    Layout.EllipsisNeverFits(CharWidth, s, maxWidth);
    if maxWidth >= EllipsisMinWidth && currentWidth <= maxWidth - EllipsisMinWidth {
      r := r + Ellipsis;
    }
  }

  /** What truncation promises: unchanged when the string fits; otherwise a prefix that
      fits and that one more character would overflow; and doing it twice changes nothing. */
  lemma TruncateFacts(s: string, maxWidth: int)
    ensures var t := Layout.Truncate(CharWidth, s, maxWidth);
      && (DisplayWidth(s) <= maxWidth ==> t == s)
      && t <= s
      && (maxWidth >= 0 ==> DisplayWidth(t) <= maxWidth)
      && (DisplayWidth(s) > maxWidth && maxWidth >= 0 ==>
            |t| < |s| && DisplayWidth(s[..|t| + 1]) > maxWidth)
      && (maxWidth >= 0 ==> Layout.Truncate(CharWidth, t, maxWidth) == t)
  {
    CharWidthIsCellRule();
    Layout.TruncateProperties(CharWidth, s, maxWidth);
    if maxWidth >= 0 {
      Layout.TruncateIdempotent(CharWidth, s, maxWidth);
    }
  }

  // ---------------------------------------------------------------- pad_string_to_width

  /** `pad_string_to_width`: spaces up to `target` when the string is narrower, otherwise
      truncation to `target`. */
  function PadStringToWidth(s: string, target: int): (r: string)
    ensures DisplayWidth(s) < target ==> r == s + Spaces(target - DisplayWidth(s))
    ensures DisplayWidth(s) < target ==> DisplayWidth(r) == target
    ensures DisplayWidth(s) >= target ==> r <= s
    ensures DisplayWidth(s) >= target && target >= 0 ==> DisplayWidth(r) <= target
    ensures DisplayWidth(s) == target ==> r == s
    ensures DisplayWidth(s) > target && target >= 0 ==>
              |r| < |s| && DisplayWidth(s[..|r| + 1]) > target
  {
    var currentWidth := DisplayWidth(s);
    TruncateFacts(s, target);
    if currentWidth >= target then
      Layout.Truncate(CharWidth, s, target)
    else
      var pad := Spaces(target - currentWidth);
      DisplayWidthConcat(s, pad);
      SpacesWidth(target - currentWidth);
      s + pad
  }

  lemma {:induction false} SpacesWidth(n: nat)
    ensures DisplayWidth(Spaces(n)) == n
  {
    if n > 0 {
      SpacesWidth(n - 1);
      DisplayWidthConcat(" ", Spaces(n - 1));
    }
  }

  /** Padding a string to its own width gives it back. */
  lemma PadToOwnWidth(s: string)
    ensures PadStringToWidth(s, DisplayWidth(s)) == s
  {
  }

  /** The natural contract "the result is exactly `target` cells" fails when truncation
      stops short of a two-cell character: one cell stays uncovered. */
  lemma PadFallsShortOfTarget()
    ensures PadStringToWidth("あ", 1) == ""
    ensures DisplayWidth(PadStringToWidth("あ", 1)) == 0
  {
    assert DisplayWidth("あ") == 2;
    assert Layout.Fit(CharWidth, "あ", 1) == 0;
  }

  /** Padding as evidently intended: truncate first, then pad whatever cells remain. */
  function PadToWidthExact(s: string, target: nat): (r: string)
    ensures DisplayWidth(r) == target
    ensures DisplayWidth(PadStringToWidth(s, target)) == target ==> r == PadStringToWidth(s, target)
  {
    TruncateFacts(s, target);
    var t := Layout.Truncate(CharWidth, s, target);
    var pad := Spaces(target - DisplayWidth(t));
    DisplayWidthConcat(t, pad);
    SpacesWidth(target - DisplayWidth(t));
    assert DisplayWidth(s) >= target ==> PadStringToWidth(s, target) == t;
    assert pad == [] ==> t + pad == t;
    t + pad
  }

  // ---------------------------------------------------------------- find_break_point

  /** `find_break_point`, as the code's scan: it remembers the last cutoff, the last space
      and the last punctuation mark reached past half of `maxWidth`, and prefers the
      space, then the punctuation, then the cutoff. */
  method FindBreakPoint(line: string, maxWidth: int) returns (k: nat)
    ensures k == Layout.BreakPoint(CharWidth, line, maxWidth)
    ensures DisplayWidth(line) <= maxWidth ==> k == |line|
    ensures k <= |line|
    ensures maxWidth >= 0 ==> DisplayWidth(line[..k]) <= maxWidth
    ensures maxWidth >= 2 && line != [] ==> k >= 1
  {
    CharWidthIsCellRule();
    Layout.BreakPointBounds(CharWidth, line, maxWidth);
    if DisplayWidth(line) <= maxWidth {
      return |line|;
    }
    var bestBreakPoint, spaceBreakPoint, punctBreakPoint := ScanForBreaks(line, maxWidth);
    k := match spaceBreakPoint
      case Some(p) => p
      case None => punctBreakPoint.GetOr(bestBreakPoint);
  }

  /** The scan of `find_break_point` over a line that does not fit: the cutoff, and the
      last space and punctuation breaks up to it. */
  method ScanForBreaks(line: string, maxWidth: int)
    returns (bestBreakPoint: nat, spaceBreakPoint: Option<nat>, punctBreakPoint: Option<nat>)
    ensures bestBreakPoint == Layout.Fit(CharWidth, line, maxWidth)
    ensures spaceBreakPoint == Layout.LastBreak(CharWidth, line, bestBreakPoint, maxWidth, Layout.BreakSpaces)
    ensures punctBreakPoint == Layout.LastBreak(CharWidth, line, bestBreakPoint, maxWidth, Layout.BreakPunctuation)
  {
    CharWidthIsCellRule();
    var currentWidth := 0;
    bestBreakPoint := 0;
    spaceBreakPoint := None;
    punctBreakPoint := None;
    var index := 0;
    while index < |line|
      invariant index <= Layout.Fit(CharWidth, line, maxWidth)
      invariant currentWidth == Layout.Width(CharWidth, line[..index])
      invariant bestBreakPoint == index
      invariant spaceBreakPoint == Layout.LastBreak(CharWidth, line, index, maxWidth, Layout.BreakSpaces)
      invariant punctBreakPoint == Layout.LastBreak(CharWidth, line, index, maxWidth, Layout.BreakPunctuation)
    {
      var c := line[index];
      var charWidth := DisplayWidth([c]);
      DisplayWidthOne(c);
      Layout.ScanStep(CharWidth, line, index, maxWidth);
      if currentWidth + charWidth > maxWidth {
        break;
      }
      currentWidth := currentWidth + charWidth;
      bestBreakPoint := index + 1;
      if c == ' ' && 2 * currentWidth > maxWidth {
        spaceBreakPoint := Some(index + 1);
      }
      if c in Layout.BreakPunctuation && 2 * currentWidth > maxWidth {
        punctBreakPoint := Some(index + 1);
      }
      index := index + 1;
    }
    assert index == Layout.Fit(CharWidth, line, maxWidth);
  }

  // ---------------------------------------------------------------- the examples of the unit tests

  /** ASCII text takes one cell per character. */
  lemma {:induction false} AsciiWidth(s: string)
    requires forall i :: 0 <= i < |s| ==> s[i] as int < 0x80
    ensures DisplayWidth(s) == |s|
  {
    if s != [] {
      AsciiWidth(s[1..]);
      assert Layout.Width(CharWidth, s) == CharWidth(s[0]) + Layout.Width(CharWidth, s[1..]);
    }
  }

  /** Text made only of characters from U+0080 on takes two cells per character. */
  lemma {:induction false} WideWidth(s: string)
    requires forall i :: 0 <= i < |s| ==> s[i] as int >= 0x80
    ensures DisplayWidth(s) == 2 * |s|
  {
    if s != [] {
      WideWidth(s[1..]);
      assert Layout.Width(CharWidth, s) == CharWidth(s[0]) + Layout.Width(CharWidth, s[1..]);
    }
  }

  /** A truncation stops at `n` when the first `n` characters fit and `n + 1` do not. */
  lemma TruncateStopsAt(s: string, maxWidth: int, n: nat)
    requires n < |s|
    requires DisplayWidth(s[..n]) <= maxWidth < DisplayWidth(s[..n + 1])
    ensures Layout.Truncate(CharWidth, s, maxWidth) == s[..n]
  {
    CharWidthIsCellRule();
    Layout.FitReach(CharWidth, s, maxWidth, n);
    Layout.FitReach(CharWidth, s, maxWidth, n + 1);
    Layout.PrefixWidthMonotone(CharWidth, s, n + 1, |s|);
    assert s[..|s|] == s;
  }

  /** Every character is ASCII. */
  predicate IsAscii(s: string) {
    forall i :: 0 <= i < |s| ==> s[i] as int < 0x80
  }

  /** In ASCII text a prefix of `k` characters is `k` cells wide. */
  lemma AsciiPrefixWidth(s: string, k: nat)
    requires IsAscii(s) && k <= |s|
    ensures DisplayWidth(s[..k]) == k
  {
    AsciiWidth(s[..k]);
  }

  /** ASCII text longer than the limit keeps exactly `maxWidth` characters. */
  lemma AsciiFit(s: string, maxWidth: nat)
    requires IsAscii(s) && maxWidth < |s|
    ensures Layout.Fit(CharWidth, s, maxWidth) == maxWidth
    ensures Layout.Truncate(CharWidth, s, maxWidth) == s[..maxWidth]
  {
    CharWidthIsCellRule();
    AsciiPrefixWidth(s, maxWidth);
    AsciiPrefixWidth(s, maxWidth + 1);
    Layout.FitReach(CharWidth, s, maxWidth, maxWidth);
    Layout.FitReach(CharWidth, s, maxWidth, maxWidth + 1);
    TruncateStopsAt(s, maxWidth, maxWidth);
  }

  /** An ASCII line wider than the limit breaks after its last space past half the
      limit, when there is one within the limit. */
  lemma AsciiSpaceBreak(line: string, maxWidth: nat, k: nat)
    requires IsAscii(line) && maxWidth < |line|
    requires 1 <= k <= maxWidth && line[k - 1] == ' ' && 2 * k > maxWidth
    requires forall j :: k <= j < maxWidth ==> line[j] != ' '
    ensures Layout.BreakPoint(CharWidth, line, maxWidth) == k
  {
    AsciiWidth(line);
    AsciiFit(line, maxWidth);
    AsciiPrefixWidth(line, k);
    Layout.LastBreakAt(CharWidth, line, maxWidth, maxWidth, Layout.BreakSpaces, k);
  }

  /** An ASCII line wider than the limit with no space within it is cut at the limit. */
  lemma AsciiCutoffBreak(line: string, maxWidth: nat)
    requires IsAscii(line) && maxWidth < |line|
    requires forall j :: 0 <= j < maxWidth ==> line[j] != ' '
    ensures Layout.BreakPoint(CharWidth, line, maxWidth) == maxWidth
  {
    AsciiWidth(line);
    AsciiFit(line, maxWidth);
    Layout.NoMarkNoBreak(CharWidth, line, maxWidth, maxWidth, Layout.BreakSpaces);
    AsciiHasNoPunctuationBreak(line, maxWidth, maxWidth);
  }

  /** The punctuation marks are all outside ASCII, so ASCII text never breaks at one. */
  lemma AsciiHasNoPunctuationBreak(line: string, n: nat, maxWidth: int)
    requires IsAscii(line) && n <= |line|
    ensures Layout.LastBreak(CharWidth, line, n, maxWidth, Layout.BreakPunctuation).None?
  {
    forall j | 0 <= j < n
      ensures line[j] !in Layout.BreakPunctuation
    {
      assert line[j] as int < 0x80;
    }
    Layout.NoMarkNoBreak(CharWidth, line, n, maxWidth, Layout.BreakPunctuation);
  }

  // The examples of the unit tests, each about one string (given as a parameter fixed by
  // the precondition, so that the solver does not evaluate the definitions on it).

  lemma HelloWidth(s: string)
    requires s == "hello"
    ensures DisplayWidth(s) == 5
  {
    AsciiWidth(s);
  }

  /** The code counts the space: eleven cells, where the unit test expects ten. */
  lemma HelloWorldWidth(s: string)
    requires s == "hello world"
    ensures DisplayWidth(s) == 11
  {
    AsciiWidth(s);
  }

  lemma KonnichiwaWidth(s: string)
    requires s == "こんにちは"
    ensures DisplayWidth(s) == 10
  {
    WideWidth(s);
  }

  lemma MixedWidth(s: string)
    requires s == "hello世界"
    ensures DisplayWidth(s) == 9
  {
    DisplayWidthCountsNonAscii(s);
    assert s == s[..5] + s[5..];
    NonAsciiSplit(s[..5], s[5..]);
    AsciiNonAsciiCount(s[..5]);
    WideNonAsciiCount(s[5..]);
  }

  lemma FullwidthSymbolWidths()
    ensures DisplayWidth("　") == 2 && DisplayWidth("！") == 2
  {
    DisplayWidthOne('　');
    DisplayWidthOne('！');
  }

  lemma NoTruncationNeeded(s: string)
    requires s == "hello"
    ensures Layout.Truncate(CharWidth, s, 10) == s
  {
    AsciiWidth(s);
  }

  /** `truncate_to_width("hello world", 5)` keeps the first five characters, `hello`;
      no ellipsis fits, though the unit test expects `he...`. */
  lemma AsciiTruncateExample(w: string)
    requires w == "hello world"
    ensures Layout.Truncate(CharWidth, w, 5) == w[..5]
  {
    assert IsAscii(w);
    AsciiFit(w, 5);
  }

  /** With 8 cells the first eight characters, `hello wo`, where the test expects `hello...`. */
  lemma AsciiTruncateExampleLonger(w: string)
    requires w == "hello world"
    ensures Layout.Truncate(CharWidth, w, 8) == w[..8]
  {
    assert IsAscii(w);
    AsciiFit(w, 8);
  }

  /** `こんにちは` in 4 cells keeps `こん`. */
  lemma WideTruncateExample(w: string)
    requires w == "こんにちは"
    ensures Layout.Truncate(CharWidth, w, 4) == w[..2]
  {
    WideWidth(w[..2]);
    WideWidth(w[..3]);
    TruncateStopsAt(w, 4, 2);
  }

  lemma PadFooExample(s: string)
    requires s == "foo"
    ensures PadStringToWidth(s, 10) == s + Spaces(7)
  {
    AsciiWidth(s);
  }

  lemma PadHelloExample(s: string)
    requires s == "hello"
    ensures PadStringToWidth(s, 5) == s
  {
    AsciiWidth(s);
  }

  /** `hello world` padded to 5 cells is cut to `hello`, which is 5 cells wide. */
  lemma PadHelloWorldExample(w: string)
    requires w == "hello world"
    ensures PadStringToWidth(w, 5) == "hello"
    ensures DisplayWidth(PadStringToWidth(w, 5)) == 5
  {
    assert IsAscii(w);
    AsciiWidth(w);
    AsciiFit(w, 5);
    AsciiWidth(w[..5]);
  }

  /** `世界` padded to 10 cells gets six spaces: eight characters, where the test counts 10. */
  lemma PadWideExample(s: string)
    requires s == "世界"
    ensures PadStringToWidth(s, 10) == s + Spaces(6)
    ensures |PadStringToWidth(s, 10)| == 8
  {
    WideWidth(s);
  }

  /** `hello世界` padded to 15 cells gets six spaces: 13 characters, where the test counts 15. */
  lemma PadMixedExample(s: string)
    requires s == "hello世界"
    ensures PadStringToWidth(s, 15) == s + Spaces(6)
    ensures |PadStringToWidth(s, 15)| == 13
  {
    MixedWidth(s);
  }

  /** `verylongword` with 5 cells has no space or punctuation to break at: the cutoff wins. */
  lemma CutoffBreakExample(v: string)
    requires v == "verylongword"
    ensures Layout.BreakPoint(CharWidth, v, 5) == 5
  {
    assert IsAscii(v);
    assert forall j :: 0 <= j < 5 ==> v[j] != ' ';
    AsciiCutoffBreak(v, 5);
  }

  /** `hello world test` with 10 cells breaks after the space (position 6). */
  lemma SpaceBreakExample(t: string)
    requires t == "hello world test"
    ensures Layout.BreakPoint(CharWidth, t, 10) == 6
  {
    assert IsAscii(t);
    assert t[5] == ' ' && forall j :: 6 <= j < 10 ==> t[j] != ' ';
    AsciiSpaceBreak(t, 10, 6);
  }
}
