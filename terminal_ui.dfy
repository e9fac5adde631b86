/** The renderer's layout arithmetic (lib/beniya/terminal_ui.rb): its own width
    heuristic with truncation, break points and preview wrapping; the split of the screen
    into list and preview panes and the window of list rows; the strings printed for an
    entry row, a size, a preview row and the footer; the entries the list shows; and the
    decoding of arrow-key escape sequences. Printing itself is not modelled: each
    computation returns the string or number that would be printed. */
module TerminalUI {
  import opened Strings
  import opened Entries
  import Layout
  import TextUtils
  import Keybind

  // ---------------------------------------------------------------- the renderer's width

  /** The character class `[あ-ん ア-ン 一-龯]`: hiragana あ..ん, katakana ア..ン, the
      ideographs 一..龯, and -- because the class is written with spaces between the
      ranges -- the ASCII space. */
  predicate InJapaneseClass(c: char) {
    var n := c as int;
    (0x3042 <= n <= 0x3093) || c == ' ' || (0x30A2 <= n <= 0x30F3) || (0x4E00 <= n <= 0x9FAF)
  }

  /** `char.ord > 127 || char.match?(/[あ-ん ア-ン 一-龯]/) ? 2 : 1` */
  function CharWidth(c: char): (w: nat)
    ensures 1 <= w <= 2
    ensures w == 2 <==> c as int > 127 || c == ' '
  {
    if c as int > 127 || InJapaneseClass(c) then 2 else 1
  }

  lemma CharWidthIsCellRule()
    ensures Layout.CellRule(CharWidth)
  {
  }

  /** The renderer and the text utilities disagree on exactly one character: the space,
      which the renderer counts as two cells. */
  lemma WidthRulesDifferOnlyOnSpace(c: char)
    ensures CharWidth(c) != TextUtils.CharWidth(c) <==> c == ' '
  {
  }

  function SpaceCount(s: string): nat {
    if s == [] then 0 else (if s[0] == ' ' then 1 else 0) + SpaceCount(s[1..])
  }

  /** So a string is as wide to the renderer as to the text utilities plus one cell for
      each space in it. */
  lemma {:induction false} RendererWidthCountsSpacesTwice(s: string)
    ensures Layout.Width(CharWidth, s) == TextUtils.DisplayWidth(s) + SpaceCount(s)
  {
    if s != [] {
      RendererWidthCountsSpacesTwice(s[1..]);
      assert TextUtils.DisplayWidth(s) == TextUtils.CharWidth(s[0]) + TextUtils.DisplayWidth(s[1..]);
    }
  }

  /** `display_width`: the `each_char` accumulation. */
  method DisplayWidth(s: string) returns (width: nat)
    ensures width == Layout.Width(CharWidth, s)
  {
    width := 0;
    var i := 0;
    while i < |s|
      invariant i <= |s|
      invariant width == Layout.Width(CharWidth, s[..i])
    {
      Layout.WidthStep(CharWidth, s, i);
      width := width + CharWidth(s[i]);
      i := i + 1;
    }
    assert s[..|s|] == s;
  }

  /** `truncate_to_width`; unlike the text utilities' copy it makes its ellipsis test at
      the moment the scan stops, and that test still never holds. */
  method TruncateToWidth(s: string, maxWidth: int) returns (r: string)
    ensures r == Layout.Truncate(CharWidth, s, maxWidth)
  {
    CharWidthIsCellRule();
    var total := DisplayWidth(s);
    if total <= maxWidth {
      return s;
    }
    var currentWidth := 0;
    r := "";
    var i := 0;
    while i < |s|
      invariant i <= Layout.Fit(CharWidth, s, maxWidth)
      invariant r == s[..i]
      invariant currentWidth == Layout.Width(CharWidth, s[..i])
    {
      var c := s[i];
      var charWidth := CharWidth(c);
      Layout.WidthStep(CharWidth, s, i);
      Layout.FitReach(CharWidth, s, maxWidth, i + 1);
      if currentWidth + charWidth > maxWidth {
        Layout.EllipsisNeverFits(CharWidth, s, maxWidth);
        if maxWidth >= 3 && currentWidth <= maxWidth - 3 {
          r := r + "...";
        }
        break;
      }
      r := r + [c];
      currentWidth := currentWidth + charWidth;
      i := i + 1;
    }
  }

  /** `find_break_point`, the renderer's copy of the scan. */
  method FindBreakPoint(line: string, maxWidth: int) returns (k: nat)
    ensures k == Layout.BreakPoint(CharWidth, line, maxWidth)
    ensures Layout.Width(CharWidth, line) <= maxWidth ==> k == |line|
    ensures k <= |line|
    ensures maxWidth >= 0 ==> Layout.Width(CharWidth, line[..k]) <= maxWidth
    ensures maxWidth >= 2 && line != [] ==> k >= 1
  {
    CharWidthIsCellRule();
    Layout.BreakPointBounds(CharWidth, line, maxWidth);
    var total := DisplayWidth(line);
    if total <= maxWidth {
      return |line|;
    }
    var bestBreakPoint, spaceBreakPoint, punctBreakPoint := ScanForBreaks(line, maxWidth);
    k := match spaceBreakPoint
      case Some(p) => p
      case None => punctBreakPoint.GetOr(bestBreakPoint);
  }

  /** The scan of `find_break_point` over a line that does not fit: the cutoff, and the
      last space and punctuation breaks up to it. */
  method ScanForBreaks(line: string, maxWidth: int)
    returns (bestBreakPoint: nat, spaceBreakPoint: Option<nat>, punctBreakPoint: Option<nat>)
    ensures bestBreakPoint == Layout.Fit(CharWidth, line, maxWidth)
    ensures spaceBreakPoint == Layout.LastBreak(CharWidth, line, bestBreakPoint, maxWidth, Layout.BreakSpaces)
    ensures punctBreakPoint == Layout.LastBreak(CharWidth, line, bestBreakPoint, maxWidth, Layout.BreakPunctuation)
  {
    CharWidthIsCellRule();
    var currentWidth := 0;
    bestBreakPoint := 0;
    spaceBreakPoint := None;
    punctBreakPoint := None;
    var index := 0;
    while index < |line|
      invariant index <= Layout.Fit(CharWidth, line, maxWidth)
      invariant currentWidth == Layout.Width(CharWidth, line[..index])
      invariant bestBreakPoint == index
      invariant spaceBreakPoint == Layout.LastBreak(CharWidth, line, index, maxWidth, Layout.BreakSpaces)
      invariant punctBreakPoint == Layout.LastBreak(CharWidth, line, index, maxWidth, Layout.BreakPunctuation)
    {
      var c := line[index];
      var charWidth := CharWidth(c);
      Layout.ScanStep(CharWidth, line, index, maxWidth);
      if currentWidth + charWidth > maxWidth {
        break;
      }
      currentWidth := currentWidth + charWidth;
      bestBreakPoint := index + 1;
      if c == ' ' && 2 * currentWidth > maxWidth {
        spaceBreakPoint := Some(index + 1);
      }
      if c in Layout.BreakPunctuation && 2 * currentWidth > maxWidth {
        punctBreakPoint := Some(index + 1);
      }
      index := index + 1;
    }
    assert index == Layout.Fit(CharWidth, line, maxWidth);
  }

  // ---------------------------------------------------------------- preview wrapping

  /** One turn of the wrapping loop as written: cut at the break point and carry on
      with the rest. */
  function WrittenWrapStep(remaining: string, maxWidth: int): (r: (string, string))
    ensures r.0 + r.1 == remaining
  {
    CharWidthIsCellRule();
    Layout.BreakPointBounds(CharWidth, remaining, maxWidth);
    var k := Layout.BreakPoint(CharWidth, remaining, maxWidth);
    assert remaining[..k] + remaining[k..] == remaining;
    (remaining[..k], remaining[k..])
  }

  /** With one cell to wrap into, a rest that starts with a two-cell character (any
      non-ASCII character, or a space) has break point 0: the written loop cuts off
      nothing, keeps the same rest and, as the rest is still too wide, never stops. */
  lemma WrittenWrapStallsAtWidthOne(remaining: string)
    requires remaining != [] && CharWidth(remaining[0]) == 2
    ensures Layout.Width(CharWidth, remaining) > 1
    ensures WrittenWrapStep(remaining, 1) == ("", remaining)
  {
    CharWidthIsCellRule();
    Layout.WidthBounds(CharWidth, remaining[1..]);
    assert Layout.Fit(CharWidth, remaining, 1) == 0;
    assert remaining[..0] == "" && remaining[0..] == remaining;
  }

  /** A preview line of a text file that holds a space, wrapped into one cell. */
  lemma WrittenWrapStallsOnSpace()
    ensures WrittenWrapStep(" x", 1) == ("", " x")
  {
    WrittenWrapStallsAtWidthOne(" x");
  }

  /** The break point the corrected loop cuts at: never 0, so every turn consumes at
      least one character. */
  function WrapCut(remaining: string, maxWidth: int): (k: nat)
    requires Layout.Width(CharWidth, remaining) > maxWidth
    requires maxWidth > 0
    ensures 1 <= k <= |remaining|
    ensures maxWidth >= 2 ==> k == Layout.BreakPoint(CharWidth, remaining, maxWidth)
    ensures Layout.Width(CharWidth, remaining[..k]) <= maxWidth || k == 1
  {
    CharWidthIsCellRule();
    Layout.BreakPointBounds(CharWidth, remaining, maxWidth);
    Layout.WidthBounds(CharWidth, remaining);
    Max(Layout.BreakPoint(CharWidth, remaining, maxWidth), 1)
  }

  /** The pieces the wrapping loop emits for a line that is too wide, each cut at
      `WrapCut`, followed by what is left when that is not empty. */
  function WrapLong(remaining: string, maxWidth: int): seq<string>
    requires maxWidth > 0
    decreases |remaining|
  {
    if Layout.Width(CharWidth, remaining) > maxWidth then
      var k := WrapCut(remaining, maxWidth);
      [remaining[..k]] + WrapLong(remaining[k..], maxWidth)
    else if |remaining| > 0 then [remaining]
    else []
  }

  /** A line that fits passes through whole; a longer one is cut by `WrapLong`. */
  function WrapLine(line: string, maxWidth: int): seq<string>
    requires maxWidth > 0
  {
    if Layout.Width(CharWidth, line) <= maxWidth then [line] else WrapLong(line, maxWidth)
  }

  /** `wrap_preview_lines` with the progress guard: nothing for no lines or no room,
      otherwise the lines' pieces in order. */
  function WrapLines(lines: seq<string>, maxWidth: int): seq<string>
  {
    if lines == [] || maxWidth <= 0 then []
    else WrapLines(lines[..|lines| - 1], maxWidth) + WrapLine(lines[|lines| - 1], maxWidth)
  }

  function Concat(pieces: seq<string>): string {
    if pieces == [] then "" else pieces[0] + Concat(pieces[1..])
  }

  lemma {:induction false} ConcatAppend(a: seq<string>, b: seq<string>)
    ensures Concat(a + b) == Concat(a) + Concat(b)
  {
    if a == [] {
      assert a + b == b;
    } else {
      var ab := a + b;
      assert ab != [] && ab[0] == a[0] && ab[1..] == a[1..] + b;
      ConcatAppend(a[1..], b);
      calc {
        Concat(ab);
        a[0] + Concat(a[1..] + b);
        a[0] + (Concat(a[1..]) + Concat(b));
        (a[0] + Concat(a[1..])) + Concat(b);
      }
    }
  }

  /** A string cut at `k`, its tail in pieces, concatenates back to the string. */
  lemma ConcatCut(s: string, k: nat, rest: seq<string>)
    requires k <= |s| && Concat(rest) == s[k..]
    ensures Concat([s[..k]] + rest) == s
  {
    var q := [s[..k]] + rest;
    assert q[0] == s[..k] && q[1..] == rest;
    assert s[..k] + s[k..] == s;
  }

  /** The pieces of a line put back together give the line. */
  lemma {:induction false} WrapLongConcat(remaining: string, maxWidth: int)
    requires maxWidth > 0
    ensures Concat(WrapLong(remaining, maxWidth)) == remaining
    decreases |remaining|
  {
    if Layout.Width(CharWidth, remaining) > maxWidth {
      var k := WrapCut(remaining, maxWidth);
      WrapLongConcat(remaining[k..], maxWidth);
      ConcatCut(remaining, k, WrapLong(remaining[k..], maxWidth));
    } else if |remaining| > 0 {
      assert Concat([remaining]) == remaining + Concat([]);
    }
  }

  /** No piece is empty, and every piece fits unless it is a single character too wide
      to fit anywhere (a two-cell character with one cell of room). */
  lemma {:induction false} WrapLongPiecesFit(remaining: string, maxWidth: int)
    requires maxWidth > 0
    ensures forall p :: p in WrapLong(remaining, maxWidth) ==>
      p != [] && (Layout.Width(CharWidth, p) <= maxWidth || |p| == 1)
    decreases |remaining|
  {
    if Layout.Width(CharWidth, remaining) > maxWidth {
      var k := WrapCut(remaining, maxWidth);
      WrapLongPiecesFit(remaining[k..], maxWidth);
    }
  }

  /** A line that fits comes back alone and unchanged, and the pieces of any line
      concatenate back to it. */
  lemma WrapLineConcat(line: string, maxWidth: int)
    requires maxWidth > 0
    ensures Layout.Width(CharWidth, line) <= maxWidth ==> WrapLine(line, maxWidth) == [line]
    ensures Concat(WrapLine(line, maxWidth)) == line
  {
    if Layout.Width(CharWidth, line) <= maxWidth {
      assert Concat([line]) == line + Concat([]);
    } else {
      WrapLongConcat(line, maxWidth);
    }
  }

  /** With at least two cells of room every piece fits. */
  lemma WrapLinePiecesFit(line: string, maxWidth: int)
    requires maxWidth >= 2
    ensures forall p :: p in WrapLine(line, maxWidth) ==> Layout.Width(CharWidth, p) <= maxWidth
  {
    if Layout.Width(CharWidth, line) > maxWidth {
      WrapLongPiecesFit(line, maxWidth);
      forall p | p in WrapLine(line, maxWidth)
        ensures Layout.Width(CharWidth, p) <= maxWidth
      {
        if |p| == 1 {
          OneCharWidth(p);
        }
      }
    }
  }

  /** One character takes at most two cells. */
  lemma OneCharWidth(p: string)
    requires |p| == 1
    ensures Layout.Width(CharWidth, p) <= 2
  {
    assert p[1..] == [];
    assert Layout.Width(CharWidth, p) == CharWidth(p[0]) + Layout.Width(CharWidth, p[1..]);
  }

  /** From two cells of room on, the corrected cut is the written one, so the written
      loop and the corrected one emit the same pieces. */
  lemma CorrectedCutIsWrittenCut(remaining: string, maxWidth: int)
    requires maxWidth >= 2 && Layout.Width(CharWidth, remaining) > maxWidth
    ensures var k := WrapCut(remaining, maxWidth);
      (remaining[..k], remaining[k..]) == WrittenWrapStep(remaining, maxWidth)
  {
  }

  /** All of a line list's pieces, in order, concatenate back to the lines. */
  lemma {:induction false} WrapLinesConcat(lines: seq<string>, maxWidth: int)
    requires maxWidth > 0
    ensures Concat(WrapLines(lines, maxWidth)) == ConcatLines(lines)
  {
    if lines != [] {
      var init := lines[..|lines| - 1];
      WrapLinesConcat(init, maxWidth);
      ConcatAppend(WrapLines(init, maxWidth), WrapLine(lines[|lines| - 1], maxWidth));
      WrapLineConcat(lines[|lines| - 1], maxWidth);
    }
  }

  function ConcatLines(lines: seq<string>): string {
    if lines == [] then "" else ConcatLines(lines[..|lines| - 1]) + lines[|lines| - 1]
  }

  /** The inner loop of `wrap_preview_lines` for one line that is too wide, with the one
      change that a break point of 0 is taken as 1 (see `WrittenWrapStallsAtWidthOne`). */
  method WrapLongLine(line: string, maxWidth: int) returns (pieces: seq<string>)
    requires maxWidth > 0
    ensures pieces == WrapLong(line, maxWidth)
  {
    pieces := [];
    var remaining := line;
    var remainingWidth := DisplayWidth(remaining);
    while remainingWidth > maxWidth
      invariant remainingWidth == Layout.Width(CharWidth, remaining)
      invariant pieces + WrapLong(remaining, maxWidth) == WrapLong(line, maxWidth)
      decreases |remaining|
    {
      var breakPoint := FindBreakPoint(remaining, maxWidth);
      if breakPoint == 0 {
        breakPoint := 1;
      }
      assert breakPoint == WrapCut(remaining, maxWidth);
      pieces := pieces + [remaining[..breakPoint]];
      remaining := remaining[breakPoint..];
      remainingWidth := DisplayWidth(remaining);
    }
    if |remaining| > 0 {
      pieces := pieces + [remaining];
    }
  }

  /** `wrap_preview_lines`: nothing for no lines or no room; otherwise each line whole
      when it fits, else its pieces. */
  method WrapPreviewLines(lines: seq<string>, maxWidth: int) returns (wrapped: seq<string>)
    ensures wrapped == WrapLines(lines, maxWidth)
  {
    if lines == [] || maxWidth <= 0 {
      return [];
    }
    wrapped := [];
    var i := 0;
    while i < |lines|
      invariant i <= |lines|
      invariant wrapped == WrapLines(lines[..i], maxWidth)
    {
      var line := lines[i];
      assert lines[..i + 1][..i] == lines[..i];
      var lineWidth := DisplayWidth(line);
      if lineWidth <= maxWidth {
        wrapped := wrapped + [line];
      } else {
        var pieces := WrapLongLine(line, maxWidth);
        wrapped := wrapped + pieces;
      }
      i := i + 1;
    }
    assert lines[..|lines|] == lines;
  }

  // ---------------------------------------------------------------- screen layout

  /** `draw_screen`'s arithmetic: the list and preview rows below the two header lines
      and above the footer, the left pane half the screen (rounded down), the right pane
      the rest; the overflow adjustment of line 92 never changes anything. */
  function ScreenLayout(screenWidth: int, screenHeight: int): (r: (int, int, int))
    ensures r.0 == screenHeight - 4
    ensures r.1 + r.2 == screenWidth
    ensures 2 * r.1 <= screenWidth <= 2 * r.1 + 1
  {
    var contentHeight := screenHeight - 4;
    var leftWidth := screenWidth / 2;
    var rightWidth := screenWidth - leftWidth;
    var adjusted := if leftWidth + rightWidth > screenWidth then screenWidth - leftWidth else rightWidth;
    (contentHeight, leftWidth, adjusted)
  }

  /** `[current_index - height / 2, 0].max`: the list is scrolled to keep the cursor
      near the middle. */
  function WindowStart(index: int, height: int): (start: int)
    ensures start >= 0
    ensures index >= 0 && height >= 1 ==> start <= index < start + height
    ensures index >= height / 2 ==> start == index - height / 2
    ensures index < height / 2 ==> start == 0
  {
    Max(index - height / 2, 0)
  }

  /** The width a list row may use: `[width - 1, screen_width / 2 - 1].min`. */
  function ListSafeWidth(width: int, screenWidth: int): int {
    Min(width - 1, screenWidth / 2 - 1)
  }

  /** The icon `get_entry_display_info` picks (its colours are not modelled). */
  function EntryIcon(e: Entry): (icon: string)
    ensures |icon| == 1
  {
    match e.kind
    case Directory => "📁"
    case Executable => "⚡"
    case File => FileIcon(Downcase(Extname(e.name)))
  }

  /** The icon of a plain file whose downcased extension is `ext`. */
  function FileIcon(ext: string): (icon: string)
    ensures |icon| == 1
  {
    if ext == ".rb" then "💎"
    else if ext == ".js" || ext == ".ts" then "📜"
    else "📄"
  }

  /** Each file icon is given exactly for its extensions. */
  lemma FileIconCases(ext: string)
    ensures FileIcon(ext) == "💎" <==> ext == ".rb"
    ensures FileIcon(ext) == "📜" <==> ext in {".js", ".ts"}
    ensures FileIcon(ext) == "📄" <==> ext !in {".rb", ".js", ".ts"}
    ensures FileIcon(ext) != "📁" && FileIcon(ext) != "⚡"
  {
  }

  /** Each icon is given exactly in its own case. */
  lemma EntryIconCases(e: Entry)
    ensures var ext := Downcase(Extname(e.name));
      && (EntryIcon(e) == "📁" <==> e.kind == Directory)
      && (EntryIcon(e) == "⚡" <==> e.kind == Executable)
      && (EntryIcon(e) == "💎" <==> e.kind == File && ext == ".rb")
      && (EntryIcon(e) == "📜" <==> e.kind == File && ext in {".js", ".ts"})
      && (EntryIcon(e) == "📄" <==> e.kind == File && ext !in {".rb", ".js", ".ts"})
  {
    FileIconCases(Downcase(Extname(e.name)));
  }

  /** `format_size`. `scaled` is the text of the size in K, M or G rounded to one
      decimal, which needs floating point and is not computed here. */
  function FormatSize(size: nat, scaled: string): (r: string)
    ensures size < 1024 ==> |r| == 6
    ensures size == 0 ==> r == Spaces(6)
    ensures size > 0 ==> |r| >= 6 && r[|r| - 1] == (if size < 1024 then 'B'
      else if size < 1024 * 1024 then 'K' else if size < 1024 * 1024 * 1024 then 'M' else 'G')
  {
    NatToStringShort(size);
    if size == 0 then "      "
    else if size < 1024 then RJust(NatToString(size) + "B", 6)
    else if size < 1024 * 1024 then RJust(scaled + "K", 6)
    else if size < 1024 * 1024 * 1024 then RJust(scaled + "M", 6)
    else RJust(scaled + "G", 6)
  }

  /** The byte column reads back as the size it shows. */
  lemma FormatSizeReadsBack(size: nat, scaled: string)
    requires 0 < size < 1024
    ensures var r := FormatSize(size, scaled);
      var d := |NatToString(size)|;
      r[5] == 'B' && (forall i :: 5 - d <= i < 5 ==> IsDigit(r[i])) && DigitsValue(r[5 - d..5]) == size
  {
    var r := FormatSize(size, scaled);
    var digits := NatToString(size);
    NatToStringShort(size);
    var text := digits + "B";
    assert r == RJust(text, 6);
    var tail := r[6 - |text|..];
    assert tail == text;
    assert r[5 - |digits|..5] == tail[..|digits|];
    assert text[..|digits|] == digits;
    DigitsRoundTrip(size);
  }

  /** The name as `draw_entry_line` shows it: cut to leave room for "..." when longer
      than `maxNameLength` (and that is positive). */
  function ShortName(name: string, maxNameLength: int): (r: string)
    ensures maxNameLength <= 0 || |name| <= maxNameLength ==> r == name
    ensures maxNameLength >= 3 && |name| > maxNameLength ==>
      r == name[..maxNameLength - 3] + "..." && |r| == maxNameLength
  {
    if maxNameLength > 0 && |name| > maxNameLength
    then RubyPrefix(name, maxNameLength - 3) + "..." else name
  }

  /** The selection mark, icon and name of a row, before the size column. */
  function EntryHead(e: Entry, marked: bool): (head: string)
    ensures |head| == 4
  {
    (if marked then "✓ " else "  ") + EntryIcon(e) + " "
  }

  /** `draw_entry_line`'s text: mark, icon and name, padded so the size column ends the
      row, then cut to the safe width. `marked` stands for `is_selected?`, which the
      handler shown does not define. */
  function EntryLine(e: Entry, width: int, screenWidth: int, marked: bool, scaled: string): (line: string)
    ensures ListSafeWidth(width, screenWidth) >= 0 ==> |line| <= ListSafeWidth(width, screenWidth)
  {
    var safeWidth := ListSafeWidth(width, screenWidth);
    var name := ShortName(e.name, safeWidth - 12);
    var sizeInfo := FormatSize(e.size, scaled);
    var content := EntryHead(e, marked) + name;
    var available := safeWidth - |sizeInfo|;
    var full := if available > 0 then LJust(content, available) + sizeInfo else content;
    RubyPrefix(full, safeWidth)
  }

  /** With room for at least 15 columns and a size below 1 KiB, every row is exactly the
      safe width: it starts with the mark and the icon, and ends with the size column. */
  lemma EntryLineFillsRow(e: Entry, width: int, screenWidth: int, marked: bool, scaled: string)
    requires ListSafeWidth(width, screenWidth) >= 15 && e.size < 1024
    ensures var safeWidth := ListSafeWidth(width, screenWidth);
      var line := EntryLine(e, width, screenWidth, marked, scaled);
      && |line| == safeWidth
      && line[safeWidth - 6..] == FormatSize(e.size, scaled)
      && line[..4] == EntryHead(e, marked)
  {
    var safeWidth := ListSafeWidth(width, screenWidth);
    var name := ShortName(e.name, safeWidth - 12);
    var head := EntryHead(e, marked);
    var content := head + name;
    var sizeInfo := FormatSize(e.size, scaled);
    var padded := LJust(content, safeWidth - 6);
    assert |padded| == safeWidth - 6;
    var full := padded + sizeInfo;
    assert EntryLine(e, width, screenWidth, marked, scaled) == RubyPrefix(full, safeWidth);
    assert RubyPrefix(full, safeWidth) == full;
    assert full[..4] == padded[..|content|][..4];
    assert full[safeWidth - 6..] == sizeInfo;
  }

  /** `draw_entry_line`, step by step as the code builds the row. */
  method DrawEntryLine(e: Entry, width: int, screenWidth: int, marked: bool, scaled: string)
    returns (lineContent: string)
    ensures lineContent == EntryLine(e, width, screenWidth, marked, scaled)
  {
    var icon := EntryIcon(e);
    var safeWidth := Min(width - 1, screenWidth / 2 - 1);
    var selectionMark := if marked then "✓ " else "  ";
    var maxNameLength := safeWidth - 12;
    var name := ShortName(e.name, maxNameLength);
    var sizeInfo := FormatSize(e.size, scaled);
    var contentWithoutSize := selectionMark + icon + " " + name;
    assert contentWithoutSize == EntryHead(e, marked) + name;
    var availableForContent := safeWidth - |sizeInfo|;
    if availableForContent > 0 {
      lineContent := LJust(contentWithoutSize, availableForContent) + sizeInfo;
    } else {
      lineContent := contentWithoutSize;
    }
    assert safeWidth == ListSafeWidth(width, screenWidth);
    lineContent := RubyPrefix(lineContent, safeWidth);
  }

  /** `draw_directory_list`: one row per line of the pane, the entries from the window
      start on, then blank rows of the safe width. */
  method DirectoryListRows(entries: seq<Entry>, currentIndex: int, width: int, height: int,
                           screenWidth: int, marked: set<string>, scaled: nat -> string)
    returns (rows: seq<string>)
    ensures rows == ListRows(entries, WindowStart(currentIndex, height), Max(height, 0), width, screenWidth, marked, scaled)
  {
    var startIndex := WindowStart(currentIndex, height);
    rows := [];
    var i := 0;
    while i < height
      invariant 0 <= i <= Max(height, 0)
      invariant rows == ListRows(entries, startIndex, i, width, screenWidth, marked, scaled)
    {
      rows := AppendListRow(rows, entries, startIndex, i, width, screenWidth, marked, scaled);
      i := i + 1;
    }
    assert i == Max(height, 0);
  }

  /** Adds the next row to the rows drawn so far. */
  method AppendListRow(rows: seq<string>, entries: seq<Entry>, start: nat, i: nat, width: int,
                       screenWidth: int, marked: set<string>, scaled: nat -> string)
    returns (next: seq<string>)
    requires rows == ListRows(entries, start, i, width, screenWidth, marked, scaled)
    ensures next == ListRows(entries, start, i + 1, width, screenWidth, marked, scaled)
  {
    var row := DrawListRow(entries, start + i, width, screenWidth, marked, scaled);
    next := rows + [row];
  }

  /** One pass of `draw_directory_list`'s loop: the entry's line, or a blank row. */
  method DrawListRow(entries: seq<Entry>, entryIndex: nat, width: int, screenWidth: int,
                     marked: set<string>, scaled: nat -> string)
    returns (row: string)
    ensures row == ListRow(entries, entryIndex, width, screenWidth, marked, scaled)
  {
    if entryIndex < |entries| {
      var e := entries[entryIndex];
      row := DrawEntryLine(e, width, screenWidth, e.name in marked, scaled(e.size));
    } else {
      var safeWidth := Min(width - 1, screenWidth / 2 - 1);
      row := Spaces(Max(safeWidth, 0));
    }
  }

  /** `f(start), …, f(start + count - 1)`. */
  function Tabulate<T>(f: nat -> T, start: nat, count: nat): (r: seq<T>)
    ensures |r| == count
  {
    if count == 0 then [] else Tabulate(f, start, count - 1) + [f(start + count - 1)]
  }

  lemma {:induction false} TabulateAt<T>(f: nat -> T, start: nat, count: nat)
    ensures forall i :: 0 <= i < count ==> Tabulate(f, start, count)[i] == f(start + i)
  {
    if count > 0 {
      TabulateAt(f, start, count - 1);
    }
  }

  /** The first `count` rows of the list pane from entry `start` on. */
  function ListRows(entries: seq<Entry>, start: nat, count: nat, width: int, screenWidth: int,
                    marked: set<string>, scaled: nat -> string): seq<string>
  {
    Tabulate(k => ListRow(entries, k, width, screenWidth, marked, scaled), start, count)
  }

  /** Row `i` of the pane shows entry `start + i`, or is blank past the last entry. */
  lemma ListRowsAt(entries: seq<Entry>, start: nat, count: nat, width: int, screenWidth: int,
                   marked: set<string>, scaled: nat -> string)
    ensures var rows := ListRows(entries, start, count, width, screenWidth, marked, scaled);
      |rows| == count
      && (forall i :: 0 <= i < count ==> rows[i] == ListRow(entries, start + i, width, screenWidth, marked, scaled))
  {
    TabulateAt(k => ListRow(entries, k, width, screenWidth, marked, scaled), start, count);
  }

  /** The text of list row `entryIndex`: the entry's line, or a blank of the safe width. */
  function ListRow(entries: seq<Entry>, entryIndex: int, width: int, screenWidth: int,
                   marked: set<string>, scaled: nat -> string): (row: string)
    requires entryIndex >= 0
    ensures ListSafeWidth(width, screenWidth) >= 0 ==> |row| <= ListSafeWidth(width, screenWidth)
  {
    if entryIndex < |entries| then
      var e := entries[entryIndex];
      EntryLine(e, width, screenWidth, e.name in marked, scaled(e.size))
    else Spaces(Max(ListSafeWidth(width, screenWidth), 0))
  }

  /** The row the cursor is on is one of the rows drawn, and it shows the cursor's entry. */
  lemma CursorRowIsDrawn(entries: seq<Entry>, currentIndex: int, width: int, height: int,
                         screenWidth: int, marked: set<string>, scaled: nat -> string)
    requires 0 <= currentIndex < |entries| && height >= 1
    ensures var start := WindowStart(currentIndex, height);
      0 <= currentIndex - start < height
      && ListRow(entries, start + (currentIndex - start), width, screenWidth, marked, scaled)
         == EntryLine(entries[currentIndex], width, screenWidth, entries[currentIndex].name in marked,
                      scaled(entries[currentIndex].size))
  {
  }

  // ---------------------------------------------------------------- the preview pane

  /** `[max_chars_from_cursor - 2, width - 2, 0].max` with the cursor one column right of
      the left pane. */
  function PreviewSafeWidth(screenWidth: int, width: int, leftOffset: int): int {
    Max(Max(screenWidth - (leftOffset + 1) - 2, width - 2), 0)
  }

  /** For the panes `draw_screen` passes in, that is two columns less than the right pane. */
  lemma PreviewSafeWidthOfPanes(screenWidth: int, screenHeight: int)
    ensures var (_, left, right) := ScreenLayout(screenWidth, screenHeight);
      PreviewSafeWidth(screenWidth, right, left) == Max(right - 2, 0)
  {
  }

  /** What row `i` of the preview shows before it is fitted: the entry's name on the top
      row, the wrapped preview from the third row on for a file, a blank otherwise. */
  function PreviewContent(selected: Option<Entry>, i: int, wrapped: seq<string>): string {
    if selected.Some? && i == 0 then " " + selected.value.name + " "
    else if selected.Some? && selected.value.kind == File && i >= 2 then
      if i - 2 < |wrapped| then " " + wrapped[i - 2] else " "
    else " "
  }

  /** The printed part after '│': nothing without room; otherwise the content, cut to
      the safe width if wider, then as many spaces as cells remain. */
  function PreviewBody(content: string, safeWidth: int): string {
    if safeWidth <= 0 then ""
    else
      var shown := if Layout.Width(CharWidth, content) > safeWidth
        then Layout.Truncate(CharWidth, content, safeWidth) else content;
      var remaining := safeWidth - Layout.Width(CharWidth, shown);
      shown + (if remaining > 0 then Spaces(remaining) else "")
  }

  /** The body is the longest prefix of the content that fits, filled to the safe width. */
  lemma PreviewBodyFits(content: string, safeWidth: int)
    ensures safeWidth <= 0 ==> PreviewBody(content, safeWidth) == ""
    ensures safeWidth > 0 ==>
      var shown := Layout.Truncate(CharWidth, content, safeWidth);
      Layout.Width(CharWidth, shown) <= safeWidth
      && PreviewBody(content, safeWidth) == shown + Spaces(safeWidth - Layout.Width(CharWidth, shown))
  {
    CharWidthIsCellRule();
    Layout.TruncateProperties(CharWidth, content, safeWidth);
    if safeWidth > 0 {
      var shown := Layout.Truncate(CharWidth, content, safeWidth);
      if Layout.Width(CharWidth, shown) == safeWidth {
        assert Spaces(0) == "";
      }
    }
  }

  /** Row `i` of the preview pane. */
  function PreviewRow(selected: Option<Entry>, i: int, safeWidth: int, preview: seq<string>): string
  {
    "│" + PreviewBody(PreviewContent(selected, i, WrapLines(preview, safeWidth - 1)), safeWidth)
  }

  /** One iteration of `draw_file_preview`'s loop: the separator, then the row's content
      fitted to the safe width. */
  method FilePreviewRow(selected: Option<Entry>, i: int, safeWidth: int, preview: seq<string>)
    returns (row: string)
    ensures row == PreviewRow(selected, i, safeWidth, preview)
  {
    var contentToPrint := ChoosePreviewContent(selected, i, safeWidth, preview);
    var body := FitToPane(contentToPrint, safeWidth);
    row := "│" + body;
  }

  /** The first part of `draw_file_preview`'s loop: the name on the top row, the
      wrapped preview line from the third row on, a blank otherwise. */
  method ChoosePreviewContent(selected: Option<Entry>, i: int, safeWidth: int, preview: seq<string>)
    returns (contentToPrint: string)
    ensures contentToPrint == PreviewContent(selected, i, WrapLines(preview, safeWidth - 1))
  {
    if selected.Some? && i == 0 {
      contentToPrint := " " + selected.value.name + " ";
    } else if selected.Some? && selected.value.kind == File && i >= 2 {
      var wrappedLines := WrapPreviewLines(preview, safeWidth - 1);
      var displayLineIndex := i - 2;
      if displayLineIndex < |wrappedLines| {
        contentToPrint := " " + wrappedLines[displayLineIndex];
      } else {
        contentToPrint := " ";
      }
    } else {
      contentToPrint := " ";
    }
  }

  /** The part of `draw_file_preview`'s loop after the content is chosen: skip the row
      without room, cut the content when it is wider than the pane, fill with spaces. */
  method FitToPane(content: string, safeWidth: int) returns (body: string)
    ensures body == PreviewBody(content, safeWidth)
  {
    if safeWidth <= 0 {
      return "";
    }
    CharWidthIsCellRule();
    Layout.TruncateProperties(CharWidth, content, safeWidth);
    var contentToPrint := content;
    var contentWidth := DisplayWidth(contentToPrint);
    if contentWidth > safeWidth {
      contentToPrint := TruncateToWidth(contentToPrint, safeWidth);
    }
    assert contentToPrint == Layout.Truncate(CharWidth, content, safeWidth);
    body := contentToPrint;
    var printedWidth := DisplayWidth(contentToPrint);
    var remainingSpace := safeWidth - printedWidth;
    if remainingSpace > 0 {
      body := body + Spaces(remainingSpace);
    } else {
      assert Spaces(0) == "";
    }
  }

  /** `draw_file_preview`: one row per line of the pane. The preview lines of the
      selected file are an input (the preview reader is not part of this model). */
  method FilePreviewRows(selected: Option<Entry>, width: int, height: int, leftOffset: int,
                         screenWidth: int, preview: seq<string>)
    returns (rows: seq<string>)
    ensures rows == PreviewRows(selected, PreviewSafeWidth(screenWidth, width, leftOffset), preview, Max(height, 0))
  {
    rows := [];
    var i := 0;
    while i < height
      invariant 0 <= i <= Max(height, 0)
      invariant rows == PreviewRows(selected, PreviewSafeWidth(screenWidth, width, leftOffset), preview, i)
    {
      var cursorPosition := leftOffset + 1;
      var maxCharsFromCursor := screenWidth - cursorPosition;
      var safeWidth := Max(Max(maxCharsFromCursor - 2, width - 2), 0);
      rows := AppendPreviewRow(rows, selected, i, safeWidth, preview);
      i := i + 1;
    }
    assert i == Max(height, 0);
  }

  /** Adds row `i` to the rows drawn so far. */
  method AppendPreviewRow(rows: seq<string>, selected: Option<Entry>, i: nat, safeWidth: int,
                          preview: seq<string>)
    returns (next: seq<string>)
    requires rows == PreviewRows(selected, safeWidth, preview, i)
    ensures next == PreviewRows(selected, safeWidth, preview, i + 1)
  {
    var row := FilePreviewRow(selected, i, safeWidth, preview);
    next := rows + [row];
  }

  /** The first `count` rows of the preview pane. */
  function PreviewRows(selected: Option<Entry>, safeWidth: int, preview: seq<string>, count: nat): seq<string>
  {
    Tabulate(i => PreviewRow(selected, i, safeWidth, preview), 0, count)
  }


  /** The preview rows' promise: each starts with the separator; with no room nothing
      follows it; otherwise the content follows, whole when it fits and cut to its
      longest fitting prefix when not, filled with spaces to exactly the safe width, as
      the renderer measures the content. */
  lemma PreviewRowFills(selected: Option<Entry>, i: int, safeWidth: int, preview: seq<string>)
    ensures var row := PreviewRow(selected, i, safeWidth, preview);
      var content := PreviewContent(selected, i, WrapLines(preview, safeWidth - 1));
      var shown := Layout.Truncate(CharWidth, content, safeWidth);
      && row[..1] == "│"
      && (safeWidth <= 0 ==> row == "│")
      && (safeWidth > 0 ==>
            shown <= content && row[1..1 + |shown|] == shown
            && Layout.Width(CharWidth, shown) + (|row| - 1 - |shown|) == safeWidth
            && (forall j :: 1 + |shown| <= j < |row| ==> row[j] == ' ')
            && (Layout.Width(CharWidth, content) <= safeWidth ==> shown == content)
            && (Layout.Width(CharWidth, content) > safeWidth ==>
                  |shown| < |content| && Layout.Width(CharWidth, content[..|shown| + 1]) > safeWidth))
  {
    var content := PreviewContent(selected, i, WrapLines(preview, safeWidth - 1));
    CharWidthIsCellRule();
    Layout.TruncateProperties(CharWidth, content, safeWidth);
    var row := PreviewRow(selected, i, safeWidth, preview);
    var body := PreviewBody(content, safeWidth);
    PreviewBodyFits(content, safeWidth);
    assert row == "│" + body;
    if safeWidth > 0 {
      var shown := Layout.Truncate(CharWidth, content, safeWidth);
      var pad := Spaces(safeWidth - Layout.Width(CharWidth, shown));
      assert row == "│" + shown + pad;
      assert row[1..1 + |shown|] == shown;
      forall j | 1 + |shown| <= j < |row|
        ensures row[j] == ' '
      {
        assert row[j] == pad[j - 1 - |shown|];
      }
    }
  }

  // ---------------------------------------------------------------- list contents and footer

  /** `get_display_entries`: the listing, filtered by the downcased query while a filter
      is active (the empty query short-cut gives the same as filtering). */
  function DisplayEntries(listing: seq<Entry>, filterActive: bool, query: string): (r: seq<Entry>)
    ensures filterActive ==> r == FilterByName(listing, query)
    ensures !filterActive ==> r == listing
  {
    FilterByEmptyQuery(listing);
    DowncaseIdempotentFilter(listing, query);
    if filterActive then
      var q := Downcase(query);
      if q == [] then listing else FilterByName(listing, q)
    else listing
  }

  lemma {:induction false} DowncaseIdempotentFilter(entries: seq<Entry>, query: string)
    ensures FilterByName(entries, Downcase(query)) == FilterByName(entries, query)
  {
    assert Downcase(Downcase(query)) == Downcase(query);
    if entries != [] {
      DowncaseIdempotentFilter(entries[1..], query);
    }
  }

  /** While a filter session's snapshot is the current listing, the list the renderer
      draws is the list the handler's cursor moves over. */
  lemma DisplayedIsActive(listing: seq<Entry>, s: Keybind.HandlerState)
    requires Keybind.Consistent(s) && s.original == listing
    ensures DisplayEntries(listing, s.mode || s.query != [], s.query)
      == (if s.mode || s.query != [] then s.filtered else listing)
  {
  }

  const FilterModeHelp := "Filter mode: Type to filter, ESC to clear, Enter to apply, Backspace to delete"
  const FilteredViewHelp := "Filtered view active - Space to edit filter, ESC to clear filter"

  /** The help text `draw_footer` picks: the filter hints while a filter is active,
      otherwise the full help, or the short one when the full one is longer than the
      screen is wide. */
  function FooterText(filterActive: bool, filterMode: bool, screenWidth: int,
                      helpFull: string, helpShort: string): string
  {
    if filterActive then (if filterMode then FilterModeHelp else FilteredViewHelp)
    else if |helpFull| > screenWidth then helpShort
    else helpFull
  }

  /** `help_text.ljust(screen_width)[0...screen_width]`: exactly the screen width, the
      text padded with spaces or cut. */
  function Footer(filterActive: bool, filterMode: bool, screenWidth: int,
                  helpFull: string, helpShort: string): (r: string)
    ensures var text := FooterText(filterActive, filterMode, screenWidth, helpFull, helpShort);
      screenWidth >= 0 ==>
        |r| == screenWidth
        && (|text| <= screenWidth ==> r == text + Spaces(screenWidth - |text|))
        && (|text| > screenWidth ==> r == text[..screenWidth])
  {
    var text := FooterText(filterActive, filterMode, screenWidth, helpFull, helpShort);
    RubyPrefix(LJust(text, screenWidth), screenWidth)
  }

  // ---------------------------------------------------------------- keys

  /** The key `handle_input` hands on after reading ESC: ESC `[` and A, B, C or D are the
      arrow keys and become k, j, l, h; anything else after ESC (or nothing) is ESC. */
  function DecodeInput(input: string, next: Option<string>, arrow: Option<string>): (key: string)
    ensures input != Keybind.Esc ==> key == input
    ensures input == Keybind.Esc ==> key in {"k", "j", "l", "h", Keybind.Esc}
  {
    if input != Keybind.Esc then input
    else if next == Some("[") then
      match arrow
      case Some(a) =>
        if a == "A" then "k"
        else if a == "B" then "j"
        else if a == "C" then "l"
        else if a == "D" then "h"
        else Keybind.Esc
      case None => Keybind.Esc
    else Keybind.Esc
  }

  /** The final byte of each arrow key's escape sequence. */
  function ArrowCode(key: string): string
    requires key in {"k", "j", "l", "h"}
  {
    if key == "k" then "A" else if key == "j" then "B" else if key == "l" then "C" else "D"
  }

  /** Decoding undoes the terminal's encoding of the arrow keys, and only a typed `q`
      decodes to `q` (the key that stops the loop). */
  lemma DecodeArrows(key: string, input: string, next: Option<string>, arrow: Option<string>)
    requires key in {"k", "j", "l", "h"}
    ensures DecodeInput(Keybind.Esc, Some("["), Some(ArrowCode(key))) == key
    ensures DecodeInput(input, next, arrow) == "q" <==> input == "q"
  {
  }

  /** `input.chomp`: one trailing "\n", "\r\n" or "\r" removed. */
  function Chomp(s: string): (r: string)
    ensures r <= s
    ensures |r| == |s| - 2 <==> EndsWithCrLf(s)
    ensures |r| == |s| - 1 <==> EndsWithBreak(s) && !EndsWithCrLf(s)
    ensures |r| == |s| <==> !EndsWithBreak(s)
  {
    if EndsWithCrLf(s) then s[..|s| - 2]
    else if EndsWithBreak(s) then s[..|s| - 1]
    else s
  }

  predicate EndsWithCrLf(s: string) {
    |s| >= 2 && s[|s| - 2..] == "\r\n"
  }

  predicate EndsWithBreak(s: string) {
    |s| >= 1 && (s[|s| - 1] == '\n' || s[|s| - 1] == '\r')
  }

  /** A line read back with any of its line ends chomps to the line. */
  lemma ChompLineEnd(l: string)
    ensures Chomp(l + "\r\n") == l
    ensures Chomp(l + "\r") == l
    ensures !EndsWithBreak(l) ==> Chomp(l) == l
    ensures (l == [] || l[|l| - 1] != '\r') ==> Chomp(l + "\n") == l
  {
    assert (l + "\r\n")[|l|..] == "\r\n";
    var r := l + "\r";
    assert r[|r| - 1] == '\r';
    if |r| >= 2 {
      assert r[|r| - 2..][1] == '\r';
    }
    assert (l + "\r\n")[..|l|] == l && r[..|l|] == l && (l + "\n")[..|l|] == l;
    var n := l + "\n";
    if |n| >= 2 && (l == [] || l[|l| - 1] != '\r') {
      assert n[|n| - 2..][0] == l[|l| - 1];
    }
  }

  /** The key the no-terminal fallback of `handle_input` returns: 'q' at end of input or
      for an empty line, otherwise the line's first character, downcased. */
  function FallbackKey(line: Option<string>): (key: string)
    ensures |key| == 1
    ensures line.None? ==> key == "q"
    ensures line.Some? && Chomp(line.value) == [] ==> key == "q"
    ensures line.Some? && Chomp(line.value) != [] ==> key == [DowncaseChar(line.value[0])]
  {
    match line
    case None => "q"
    case Some(l) =>
      var input := Downcase(Chomp(l));
      if |input| > 0 then [input[0]] else "q"
  }

  /** One read of `handle_input`: a key from the terminal with the two characters that may
      follow ESC (each absent when nothing is waiting), or, with no terminal, the line
      read instead (absent at end of input). */
  datatype Read =
    | KeyRead(input: string, next: Option<string>, arrow: Option<string>)
    | LineRead(line: Option<string>)

  /** The renderer's state: the screen size and whether the main loop goes on. */
  class Screen {
    var screenWidth: int
    var screenHeight: int
    var running: bool

    /** `initialize`: the console's size (rows, then columns), or 80 by 24 without one. */
    constructor (console: Option<(int, int)>)
      ensures !running
      ensures console.None? ==> screenWidth == 80 && screenHeight == 24
      ensures console.Some? ==> screenWidth == console.value.1 && screenHeight == console.value.0
    {
      match console {
        case Some(size) =>
          screenWidth := size.1;
          screenHeight := size.0;
        case None =>
          screenWidth := 80;
          screenHeight := 24;
      }
      running := false;
    }

    /** `update_screen_size`: keeps the old size when there is no console. */
    method UpdateScreenSize(console: Option<(int, int)>)
      modifies this`screenWidth, this`screenHeight
      ensures console.None? ==> screenWidth == old(screenWidth) && screenHeight == old(screenHeight)
      ensures console.Some? ==> screenWidth == console.value.1 && screenHeight == console.value.0
    {
      if console.Some? {
        screenWidth := console.value.1;
        screenHeight := console.value.0;
      }
    }

    /** `handle_input`: decode the key, hand it to the key handler, and stop the loop on
        `q`. Without a terminal the line read gives a key that is returned and nothing
        else happens: the handler is not called and the loop is not stopped. `keyResult`
        and `error` are what the handler gave; an error leaves `handle_input` at once,
        as the exception does. */
    method HandleInput(read: Read, handler: Keybind.KeybindHandler, env: Keybind.Outside)
      returns (fallback: Option<string>, keyResult: bool, error: Option<string>)
      requires handler.Valid()
      modifies this`running, handler, handler.listing
      ensures handler.Valid()
      ensures read.LineRead? ==>
        fallback == Some(FallbackKey(read.line)) && running == old(running) && !keyResult && error.None?
        && unchanged(handler) && (handler.listing != null ==> unchanged(handler.listing))
      ensures read.KeyRead? ==>
        fallback.None?
        && handler.KeyHandled(DecodeInput(read.input, read.next, read.arrow), env, keyResult, error)
        && running == (old(running) && DecodeInput(read.input, read.next, read.arrow) != "q")
    {
      match read {
        case LineRead(line) =>
          return Some(FallbackKey(line)), false, None;
        case KeyRead(input, next, arrow) =>
          var key := DecodeInput(input, next, arrow);
          keyResult, error := handler.HandleKey(key, env);
          if error.Some? {
            return None, keyResult, error;
          }
          if key == "q" {
            running := false;
          }
          return None, keyResult, error;
      }
    }
  }
}
