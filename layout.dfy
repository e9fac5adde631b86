/** Cell layout shared by the two width heuristics of the browser (the text utilities'
    and the renderer's): every character is one or two terminal cells wide, and width,
    truncation and break-point choice are defined once over a per-character rule. */
module Layout {
  import opened Strings

  /** A per-character cell rule: every character takes one or two cells. */
  ghost predicate CellRule(cw: char -> nat) {
    forall c: char :: 1 <= cw(c) <= 2
  }

  /** Display width of `s` under rule `cw`: the sum of its characters' cells. */
  function Width(cw: char -> nat, s: string): nat
  {
    if s == [] then 0 else cw(s[0]) + Width(cw, s[1..])
  }

  lemma {:induction false} WidthBounds(cw: char -> nat, s: string)
    requires CellRule(cw)
    ensures |s| <= Width(cw, s) <= 2 * |s|
  {
    if s != [] {
      WidthBounds(cw, s[1..]);
      assert 1 <= cw(s[0]) <= 2;
    }
  }

  /** Width is additive over concatenation. */
  lemma {:induction false} WidthConcat(cw: char -> nat, a: string, b: string)
    ensures Width(cw, a + b) == Width(cw, a) + Width(cw, b)
  {
    if a == [] {
      assert a + b == b;
    } else {
      WidthConcat(cw, a[1..], b);
      assert (a + b)[1..] == a[1..] + b;
    }
  }

  lemma WidthStep(cw: char -> nat, s: string, i: nat)
    requires i < |s|
    ensures Width(cw, s[..i + 1]) == Width(cw, s[..i]) + cw(s[i])
  {
    assert s[..i + 1] == s[..i] + [s[i]];
    WidthConcat(cw, s[..i], [s[i]]);
  }

  // ---------------------------------------------------------------- fitting prefix

  /** How many leading characters an `each_char` scan keeps before the next one
      would push the width past `maxWidth`. */
  function Fit(cw: char -> nat, s: string, maxWidth: int): (n: nat)
    ensures n <= |s|
  {
    if s == [] || cw(s[0]) > maxWidth then 0
    else 1 + Fit(cw, s[1..], maxWidth - cw(s[0]))
  }

  /** A non-empty prefix is within the scan's reach exactly when it fits. */
  lemma {:induction false} FitReach(cw: char -> nat, s: string, maxWidth: int, i: nat)
    requires CellRule(cw)
    requires i <= |s|
    ensures i <= Fit(cw, s, maxWidth) <==> (i == 0 || Width(cw, s[..i]) <= maxWidth)
  {
    if i > 0 {
      assert s[..i][1..] == s[1..][..i - 1];
      FitReach(cw, s[1..], maxWidth - cw(s[0]), i - 1);
      WidthBounds(cw, s[1..][..i - 1]);
    }
  }

  /** What `Fit` means: the prefix it keeps fits (for a non-negative limit), and one
      more character would not. */
  lemma FitIsLongest(cw: char -> nat, s: string, maxWidth: int)
    requires CellRule(cw)
    ensures maxWidth >= 0 ==> Width(cw, s[..Fit(cw, s, maxWidth)]) <= maxWidth
    ensures Fit(cw, s, maxWidth) < |s| ==> Width(cw, s[..Fit(cw, s, maxWidth) + 1]) > maxWidth
  {
    var n := Fit(cw, s, maxWidth);
    FitReach(cw, s, maxWidth, n);
    if n < |s| {
      FitReach(cw, s, maxWidth, n + 1);
    }
  }

  lemma FitOfWhole(cw: char -> nat, s: string, maxWidth: int)
    requires CellRule(cw)
    requires Width(cw, s) <= maxWidth
    ensures Fit(cw, s, maxWidth) == |s|
  {
    assert s[..|s|] == s;
    FitReach(cw, s, maxWidth, |s|);
  }

  // ---------------------------------------------------------------- truncation

  /** `truncate_to_width` as both copies of the code behave: the string itself when it
      fits, otherwise its longest prefix that fits. */
  function Truncate(cw: char -> nat, s: string, maxWidth: int): string
  {
    if Width(cw, s) <= maxWidth then s else s[..Fit(cw, s, maxWidth)]
  }

  lemma TruncateProperties(cw: char -> nat, s: string, maxWidth: int)
    requires CellRule(cw)
    ensures Width(cw, s) <= maxWidth ==> Truncate(cw, s, maxWidth) == s
    ensures Truncate(cw, s, maxWidth) <= s
    ensures maxWidth >= 0 ==> Width(cw, Truncate(cw, s, maxWidth)) <= maxWidth
    ensures Width(cw, s) > maxWidth && maxWidth >= 0 ==>
      |Truncate(cw, s, maxWidth)| < |s| &&
      Width(cw, s[..|Truncate(cw, s, maxWidth)| + 1]) > maxWidth
  {
    FitIsLongest(cw, s, maxWidth);
    assert s[..|s|] == s;
  }

  /** Truncating twice to the same width is truncating once. */
  lemma TruncateIdempotent(cw: char -> nat, s: string, maxWidth: int)
    requires CellRule(cw)
    requires maxWidth >= 0
    ensures Truncate(cw, Truncate(cw, s, maxWidth), maxWidth) == Truncate(cw, s, maxWidth)
  {
    TruncateProperties(cw, s, maxWidth);
  }

  /** The ellipsis test `current_width <= max_width - 3`, made after the scan stopped on a
      character that did not fit, never holds: that character is at most two cells. */
  lemma EllipsisNeverFits(cw: char -> nat, s: string, maxWidth: int)
    requires CellRule(cw)
    requires Width(cw, s) > maxWidth
    ensures !(maxWidth >= 3 && Width(cw, s[..Fit(cw, s, maxWidth)]) <= maxWidth - 3)
  {
    var n := Fit(cw, s, maxWidth);
    if maxWidth >= 3 {
      TruncateProperties(cw, s, maxWidth);
      WidthStep(cw, s, n);
    }
  }

  // ---------------------------------------------------------------- break points

  const BreakSpaces := " "
  const BreakPunctuation := "、。，．！？"

  /** The last position `j` in `1..n` that a scan records as a break: the character
      before it is one of `marks` and the width up to it exceeds half of `maxWidth`
      (the code's `current_width > max_width * 0.5`, exact over integers). */
  function LastBreak(cw: char -> nat, line: string, n: nat, maxWidth: int, marks: string): (r: Option<nat>)
    requires n <= |line|
    ensures r.Some? ==>
      1 <= r.value <= n && line[r.value - 1] in marks && 2 * Width(cw, line[..r.value]) > maxWidth
    ensures r.Some? ==> forall j :: r.value < j <= n ==>
      !(line[j - 1] in marks && 2 * Width(cw, line[..j]) > maxWidth)
    ensures r.None? ==> forall j :: 1 <= j <= n ==>
      !(line[j - 1] in marks && 2 * Width(cw, line[..j]) > maxWidth)
    decreases n
  {
    if n == 0 then None
    else if line[n - 1] in marks && 2 * Width(cw, line[..n]) > maxWidth then Some(n)
    else LastBreak(cw, line, n - 1, maxWidth, marks)
  }

  /** One character of the scan: it is kept exactly when the width stays within the
      limit, and a break mark it ends becomes the last break. */
  lemma ScanStep(cw: char -> nat, line: string, index: nat, maxWidth: int)
    requires CellRule(cw)
    requires index < |line| && index <= Fit(cw, line, maxWidth)
    ensures Width(cw, line[..index + 1]) == Width(cw, line[..index]) + cw(line[index])
    ensures index + 1 <= Fit(cw, line, maxWidth) <==> Width(cw, line[..index + 1]) <= maxWidth
    ensures forall marks: string {:trigger LastBreak(cw, line, index + 1, maxWidth, marks)} ::
      LastBreak(cw, line, index + 1, maxWidth, marks)
        == if line[index] in marks && 2 * Width(cw, line[..index + 1]) > maxWidth then Some(index + 1)
           else LastBreak(cw, line, index, maxWidth, marks)
  {
    WidthStep(cw, line, index);
    FitReach(cw, line, maxWidth, index + 1);
  }

  /** Without a mark among the first `n` characters there is no break. */
  lemma {:induction false} NoMarkNoBreak(cw: char -> nat, line: string, n: nat, maxWidth: int, marks: string)
    requires n <= |line|
    requires forall j :: 0 <= j < n ==> line[j] !in marks
    ensures LastBreak(cw, line, n, maxWidth, marks).None?
  {
    if n > 0 {
      NoMarkNoBreak(cw, line, n - 1, maxWidth, marks);
    }
  }

  /** A mark past the threshold with no mark after it up to `n` is the last break. */
  lemma {:induction false} LastBreakAt(cw: char -> nat, line: string, n: nat, maxWidth: int, marks: string, k: nat)
    requires 1 <= k <= n <= |line|
    requires line[k - 1] in marks && 2 * Width(cw, line[..k]) > maxWidth
    requires forall j :: k <= j < n ==> line[j] !in marks
    ensures LastBreak(cw, line, n, maxWidth, marks) == Some(k)
  {
    if n > k {
      LastBreakAt(cw, line, n - 1, maxWidth, marks, k);
    }
  }

  /** `find_break_point`: the whole length when the line fits; otherwise the last space
      break, else the last punctuation break, else the width cutoff. */
  function BreakPoint(cw: char -> nat, line: string, maxWidth: int): nat
  {
    if Width(cw, line) <= maxWidth then |line|
    else
      var n := Fit(cw, line, maxWidth);
      match LastBreak(cw, line, n, maxWidth, BreakSpaces)
      case Some(k) => k
      case None =>
        match LastBreak(cw, line, n, maxWidth, BreakPunctuation)
        case Some(k) => k
        case None => n
  }

  lemma PrefixWidthMonotone(cw: char -> nat, s: string, j: nat, k: nat)
    requires j <= k <= |s|
    ensures Width(cw, s[..j]) <= Width(cw, s[..k])
  {
    assert s[..k] == s[..j] + s[j..k];
    WidthConcat(cw, s[..j], s[j..k]);
  }

  /** What a break point guarantees: it is within the line, the piece before it fits,
      and it makes progress whenever the limit admits any character. */
  lemma BreakPointBounds(cw: char -> nat, line: string, maxWidth: int)
    requires CellRule(cw)
    ensures Width(cw, line) <= maxWidth ==> BreakPoint(cw, line, maxWidth) == |line|
    ensures BreakPoint(cw, line, maxWidth) <= |line|
    ensures maxWidth >= 0 ==> Width(cw, line[..BreakPoint(cw, line, maxWidth)]) <= maxWidth
    ensures maxWidth >= 2 && line != [] ==> BreakPoint(cw, line, maxWidth) >= 1
  {
    var k := BreakPoint(cw, line, maxWidth);
    if Width(cw, line) <= maxWidth {
      assert line[..|line|] == line;
    } else {
      var n := Fit(cw, line, maxWidth);
      FitIsLongest(cw, line, maxWidth);
      assert k <= n;
      if maxWidth >= 0 {
        PrefixWidthMonotone(cw, line, k, n);
      }
      if maxWidth >= 2 && line != [] {
        FitReach(cw, line, maxWidth, 1);
        assert line[..1] == [line[0]];
        assert 1 <= cw(line[0]) <= 2;
        assert n >= 1;
        assert k >= 1;
      }
    }
  }
}
