/** Ruby string and array primitives that the browser's code relies on, written out:
    UTF-8 byte size, ASCII case folding, substring search, `gsub` with a literal
    pattern, `ljust`/`rjust`, slicing with a possibly negative end, negative array
    indexing, decimal digits and `File.extname`. */
module Strings {

  datatype Option<+T> = None | Some(value: T) {
    function GetOr(default: T): T {
      match this
      case Some(v) => v
      case None => default
    }
  }

  // ---------------------------------------------------------------- bytes

  /** Number of bytes of `c` in UTF-8 (Ruby's `String#bytesize` of a one-character string). */
  function Utf8Size(c: char): (n: nat)
    ensures 1 <= n <= 4
    ensures n == 1 <==> c as int < 0x80
  {
    if c as int < 0x80 then 1
    else if c as int < 0x800 then 2
    else if c as int < 0x10000 then 3
    else 4
  }

  /** `String#bytesize`. */
  function Bytesize(s: string): (n: nat)
    ensures n >= |s|
  {
    if s == [] then 0 else Utf8Size(s[0]) + Bytesize(s[1..])
  }

  // ---------------------------------------------------------------- case

  /** `downcase`, restricted to the ASCII letters. */
  function DowncaseChar(c: char): char {
    if 'A' <= c <= 'Z' then (c as int + 32) as char else c
  }

  function Downcase(s: string): (r: string)
    ensures |r| == |s|
    ensures forall i :: 0 <= i < |s| ==> r[i] == DowncaseChar(s[i])
  {
    if s == [] then [] else [DowncaseChar(s[0])] + Downcase(s[1..])
  }

  // ---------------------------------------------------------------- search

  /** `hay.include?(needle)`: some position of `hay` starts with `needle`. */
  predicate Contains(hay: string, needle: string)
    decreases |hay|
  {
    needle <= hay || (|hay| > 0 && Contains(hay[1..], needle))
  }

  lemma {:induction false} ContainsAt(hay: string, needle: string, i: nat)
    requires i + |needle| <= |hay| && hay[i..i + |needle|] == needle
    ensures Contains(hay, needle)
    decreases i
  {
    if i == 0 {
      assert needle <= hay;
    } else {
      assert hay[1..][i - 1..i - 1 + |needle|] == needle;
      ContainsAt(hay[1..], needle, i - 1);
    }
  }

  lemma {:induction false} ContainsWitness(hay: string, needle: string) returns (i: nat)
    requires Contains(hay, needle)
    ensures i + |needle| <= |hay| && hay[i..i + |needle|] == needle
    decreases |hay|
  {
    if needle <= hay {
      i := 0;
    } else {
      var j := ContainsWitness(hay[1..], needle);
      i := j + 1;
      assert hay[i..i + |needle|] == hay[1..][j..j + |needle|];
    }
  }

  lemma EmptyIsContained(hay: string)
    ensures Contains(hay, "")
  {
    assert "" <= hay;
  }

  /** A string containing `needle + more` contains `needle`. */
  lemma ContainsShorterNeedle(hay: string, needle: string, more: string)
    requires Contains(hay, needle + more)
    ensures Contains(hay, needle)
  {
    var i := ContainsWitness(hay, needle + more);
    assert hay[i..i + |needle|] == (needle + more)[..|needle|];
    ContainsAt(hay, needle, i);
  }

  lemma DowncaseConcat(a: string, b: string)
    ensures Downcase(a + b) == Downcase(a) + Downcase(b)
  {
  }

  // ---------------------------------------------------------------- gsub

  /** The scan `gsub` makes for a literal, non-empty pattern, with every non-overlapping
      occurrence it meets replaced by `r` exactly as written. */
  function ReplaceAll(s: string, p: string, r: string): string
    requires |p| > 0
    decreases |s|
  {
    if |s| == 0 then ""
    else if p <= s then r + ReplaceAll(s[|p|..], p, r)
    else [s[0]] + ReplaceAll(s[1..], p, r)
  }

  /** The characters that make a backslash in a `gsub` replacement special. */
  predicate IsEscape(c: char) {
    c == '\\' || c == '0' || c == '&' || c == '`' || c == '\'' || c == '+' || ('1' <= c <= '9')
  }

  /** What a `gsub` replacement string stands for at one occurrence `m` found after
      `pre` and before `post`: `\\` is one backslash, `\0` and `\&` the occurrence,
      `\`` the text before it, `\'` the text after it, `\1` to `\9` and `\+` (the last
      group that matched) nothing, as a string pattern has no groups; any other
      backslash, a final one included, stays. */
  function Expand(r: string, m: string, pre: string, post: string): string
    decreases |r|
  {
    if r == [] then ""
    else if r[0] == '\\' && |r| >= 2 && IsEscape(r[1]) then
      var c := r[1];
      (if c == '\\' then "\\"
       else if c == '0' || c == '&' then m
       else if c == '`' then pre
       else if c == '\'' then post
       else "") + Expand(r[2..], m, pre, post)
    else if r[0] == '\\' && |r| >= 2 then r[..2] + Expand(r[2..], m, pre, post)
    else [r[0]] + Expand(r[1..], m, pre, post)
  }

  /** A replacement with no escape in it: every backslash is followed by a character
      that is not special. */
  predicate Inert(r: string)
    decreases |r|
  {
    if r == [] then true
    else if r[0] == '\\' && |r| >= 2 then !IsEscape(r[1]) && Inert(r[2..])
    else Inert(r[1..])
  }

  /** An inert replacement stands for itself wherever it is used. */
  lemma {:induction false} ExpandInert(r: string, m: string, pre: string, post: string)
    requires Inert(r)
    ensures Expand(r, m, pre, post) == r
    decreases |r|
  {
    if r == [] {
    } else if r[0] == '\\' && |r| >= 2 {
      ExpandInert(r[2..], m, pre, post);
      assert r == r[..2] + r[2..];
    } else {
      ExpandInert(r[1..], m, pre, post);
      assert r == [r[0]] + r[1..];
    }
  }

  lemma {:induction false} NoBackslashIsInert(r: string)
    requires '\\' !in r
    ensures Inert(r)
    decreases |r|
  {
    if r != [] {
      assert r[0] in r;
      assert forall c :: c in r[1..] ==> c in r;
      NoBackslashIsInert(r[1..]);
    }
  }

  /** `s.gsub(p, r)` for a string pattern `p`: Ruby looks for `p` literally, left to right,
      and reads `r` for its escapes at each occurrence. */
  function GSub(s: string, p: string, r: string): string
    requires |p| > 0
  {
    GSubFrom("", s, p, r)
  }

  /** The same scan over the rest `s` of the subject, `done` being the part already passed. */
  function GSubFrom(done: string, s: string, p: string, r: string): string
    requires |p| > 0
    decreases |s|
  {
    if |s| == 0 then ""
    else if p <= s then Expand(r, p, done, s[|p|..]) + GSubFrom(done + p, s[|p|..], p, r)
    else [s[0]] + GSubFrom(done + [s[0]], s[1..], p, r)
  }

  /** With an inert replacement `gsub` is the plain replacement. */
  lemma {:induction false} GSubFromInert(done: string, s: string, p: string, r: string)
    requires |p| > 0 && Inert(r)
    ensures GSubFrom(done, s, p, r) == ReplaceAll(s, p, r)
    decreases |s|
  {
    if |s| == 0 {
    } else if p <= s {
      ExpandInert(r, p, done, s[|p|..]);
      GSubFromInert(done + p, s[|p|..], p, r);
    } else {
      GSubFromInert(done + [s[0]], s[1..], p, r);
    }
  }

  lemma GSubInert(s: string, p: string, r: string)
    requires |p| > 0 && Inert(r)
    ensures GSub(s, p, r) == ReplaceAll(s, p, r)
  {
    GSubFromInert("", s, p, r);
  }

  /** `\\` in the replacement puts one backslash in the result. */
  lemma GSubDoubleBackslash(s: string, p: string)
    requires s == p && |p| > 0
    ensures GSub(s, p, "a\\\\b") == "a\\b"
  {
    var r := "a\\\\b";
    assert r[1..][2..] == "b";
    assert Expand(r[1..][2..], p, "", "") == "b";
    assert Expand(r[1..], p, "", "") == "\\b";
    assert Expand(r, p, "", "") == "a\\b";
    assert s[|p|..] == [];
    assert GSubFrom("", s, p, r) == Expand(r, p, "", []) + GSubFrom("" + p, [], p, r);
  }

  /** `\0` in the replacement puts the occurrence back, so the text is unchanged. */
  lemma GSubWholeMatch(s: string, p: string)
    requires s == p && |p| > 0
    ensures GSub(s, p, "\\0") == s
  {
    var r := "\\0";
    assert r[2..] == [];
    assert Expand(r, p, "", "") == p;
    assert s[|p|..] == [];
    assert GSubFrom("", s, p, r) == Expand(r, p, "", []) + GSubFrom("" + p, [], p, r);
  }

  /** `\+`, the last group that matched, stands for nothing: a string pattern has no
      groups, so the occurrence is removed. */
  lemma GSubLastGroup(s: string, p: string)
    requires s == p && |p| > 0
    ensures GSub(s, p, "\\+") == ""
  {
    var r := "\\+";
    assert r[2..] == [];
    assert Expand(r, p, "", "") == "";
    assert s[|p|..] == [];
    assert GSubFrom("", s, p, r) == Expand(r, p, "", []) + GSubFrom("" + p, [], p, r);
  }

  /** `` \` `` and `\'` stand for the text before and after the occurrence. */
  lemma GSubPreAndPost(a: char, b: char)
    requires a != '%'
    ensures GSub([a] + "%{n}" + [b], "%{n}", "\\`") == [a, a, b]
    ensures GSub([a] + "%{n}" + [b], "%{n}", "\\'") == [a, b, b]
  {
    var s := [a] + "%{n}" + [b];
    var p := "%{n}";
    assert !(p <= s);
    assert s[1..] == p + [b];
    assert p <= s[1..];
    assert s[1..][|p|..] == [b];
    assert !(p <= [b]);
    assert [b][1..] == [];
    var pre := "\\`";
    var post := "\\'";
    assert pre[2..] == [] && post[2..] == [];
    assert Expand(pre, p, [a], [b]) == [a];
    assert Expand(post, p, [a], [b]) == [b];
    assert GSubFrom([a] + p, [b], p, pre) == [b];
    assert GSubFrom([a] + p, [b], p, post) == [b];
    assert s[0] == a && "" + [s[0]] == [a];
    assert GSubFrom("", s, p, pre) == [a] + GSubFrom([a], s[1..], p, pre);
    assert GSubFrom([a], s[1..], p, pre) == [a] + GSubFrom([a] + p, [b], p, pre);
    assert GSubFrom("", s, p, post) == [a] + GSubFrom([a], s[1..], p, post);
    assert GSubFrom([a], s[1..], p, post) == [b] + GSubFrom([a] + p, [b], p, post);
  }

  /** The pieces the same scan leaves between the occurrences it finds. */
  function SplitOn(s: string, p: string): (pieces: seq<string>)
    requires |p| > 0
    ensures |pieces| >= 1
    decreases |s|
  {
    if |s| == 0 then [""]
    else if p <= s then [""] + SplitOn(s[|p|..], p)
    else var rest := SplitOn(s[1..], p); [[s[0]] + rest[0]] + rest[1..]
  }

  function Join(pieces: seq<string>, sep: string): string
    requires |pieces| >= 1
  {
    if |pieces| == 1 then pieces[0] else pieces[0] + sep + Join(pieces[1..], sep)
  }

  /** The plain replacement puts `r` exactly where the scan found the pattern. */
  lemma {:induction false} ReplaceAllIsJoinOfSplit(s: string, p: string, r: string)
    requires |p| > 0
    ensures ReplaceAll(s, p, r) == Join(SplitOn(s, p), r)
    decreases |s|
  {
    if |s| == 0 {
    } else if p <= s {
      ReplaceAllIsJoinOfSplit(s[|p|..], p, r);
      JoinConsEmpty(SplitOn(s[|p|..], p), r);
    } else {
      ReplaceAllIsJoinOfSplit(s[1..], p, r);
      var rest := SplitOn(s[1..], p);
      JoinConsFirst(s[0], rest, r);
    }
  }

  /** `gsub` with an inert replacement puts it exactly where the scan found the pattern. */
  lemma GSubIsJoinOfSplit(s: string, p: string, r: string)
    requires |p| > 0 && Inert(r)
    ensures GSub(s, p, r) == Join(SplitOn(s, p), r)
  {
    GSubInert(s, p, r);
    ReplaceAllIsJoinOfSplit(s, p, r);
  }

  lemma JoinConsEmpty(pieces: seq<string>, sep: string)
    requires |pieces| >= 1
    ensures Join([""] + pieces, sep) == sep + Join(pieces, sep)
  {
    var q := [""] + pieces;
    assert q[0] == "" && q[1..] == pieces;
  }

  lemma JoinConsFirst(c: char, pieces: seq<string>, sep: string)
    requires |pieces| >= 1
    ensures Join([[c] + pieces[0]] + pieces[1..], sep) == [c] + Join(pieces, sep)
  {
    if |pieces| == 1 {
    } else {
      var q := [[c] + pieces[0]] + pieces[1..];
      assert q[1..] == pieces[1..];
    }
  }

  /** Joining the pieces back with the pattern gives the original string. */
  lemma {:induction false} SplitJoinRoundTrip(s: string, p: string)
    requires |p| > 0
    ensures Join(SplitOn(s, p), p) == s
    decreases |s|
  {
    if |s| == 0 {
    } else if p <= s {
      SplitJoinRoundTrip(s[|p|..], p);
      JoinConsEmpty(SplitOn(s[|p|..], p), p);
      assert s == p + s[|p|..];
    } else {
      SplitJoinRoundTrip(s[1..], p);
      JoinConsFirst(s[0], SplitOn(s[1..], p), p);
      assert s == [s[0]] + s[1..];
    }
  }

  /** No piece left by the scan contains the pattern: every occurrence was replaced. */
  lemma {:induction false} SplitPiecesAvoidPattern(s: string, p: string, k: nat)
    requires |p| > 0
    requires k < |SplitOn(s, p)|
    ensures !Contains(SplitOn(s, p)[k], p)
    decreases |s|
  {
    var pieces := SplitOn(s, p);
    if |s| == 0 {
      NotContainsShort("", p);
    } else if p <= s {
      if k == 0 {
        NotContainsShort("", p);
      } else {
        SplitPiecesAvoidPattern(s[|p|..], p, k - 1);
      }
    } else {
      var rest := SplitOn(s[1..], p);
      if k == 0 {
        SplitPiecesAvoidPattern(s[1..], p, 0);
        FirstPieceIsPrefix(s[1..], p);
        var piece := [s[0]] + rest[0];
        assert piece[1..] == rest[0];
        assert s == [s[0]] + s[1..];
        assert piece <= s;
        assert !(p <= piece);
      } else {
        SplitPiecesAvoidPattern(s[1..], p, k);
      }
    }
  }

  lemma {:induction false} FirstPieceIsPrefix(s: string, p: string)
    requires |p| > 0
    ensures SplitOn(s, p)[0] <= s
    decreases |s|
  {
    if |s| == 0 {
    } else if p <= s {
    } else {
      FirstPieceIsPrefix(s[1..], p);
    }
  }

  /** `gsub` leaves a string without the pattern as it is, whatever the replacement. */
  lemma GSubAbsent(s: string, p: string, r: string)
    requires |p| > 0 && !Contains(s, p)
    ensures GSub(s, p, r) == s
  {
    GSubFromAbsent("", s, p, r);
  }

  lemma {:induction false} GSubFromAbsent(done: string, s: string, p: string, r: string)
    requires |p| > 0 && !Contains(s, p)
    ensures GSubFrom(done, s, p, r) == s
    decreases |s|
  {
    if |s| > 0 {
      GSubFromAbsent(done + [s[0]], s[1..], p, r);
      assert [s[0]] + s[1..] == s;
    }
  }

  lemma NotContainsShort(s: string, p: string)
    requires |s| < |p|
    ensures !Contains(s, p)
    decreases |s|
  {
    if |s| > 0 {
      NotContainsShort(s[1..], p);
    }
  }

  // ---------------------------------------------------------------- padding and slicing

  function Spaces(n: nat): (r: string)
    ensures |r| == n
    ensures forall i :: 0 <= i < n ==> r[i] == ' '
  {
    if n == 0 then "" else " " + Spaces(n - 1)
  }

  function Max(a: int, b: int): int { if a >= b then a else b }
  function Min(a: int, b: int): int { if a <= b then a else b }

  /** `s.ljust(w)`: pad with spaces on the right to `w` characters. */
  function LJust(s: string, w: int): (r: string)
    ensures |r| == Max(|s|, w)
    ensures r[..|s|] == s
  {
    if |s| < w then s + Spaces(w - |s|) else s
  }

  /** `s.rjust(w)`: pad with spaces on the left to `w` characters. */
  function RJust(s: string, w: int): (r: string)
    ensures |r| == Max(|s|, w)
    ensures r[|r| - |s|..] == s
  {
    if |s| < w then Spaces(w - |s|) + s else s
  }

  /** `s[0...n]`: a negative `n` counts from the end; a position before the start gives "". */
  function RubyPrefix<T>(s: seq<T>, n: int): (r: seq<T>)
    ensures r <= s
    ensures n >= 0 ==> |r| == Min(n, |s|)
    ensures n < 0 ==> |r| == Max(|s| + n, 0)
  {
    if n >= 0 then (if n <= |s| then s[..n] else s)
    else if |s| + n >= 0 then s[..|s| + n]
    else []
  }

  /** `array[i]`: a negative `i` counts from the end; out of range gives nil. */
  function RubyAt<T>(s: seq<T>, i: int): (r: Option<T>)
    ensures r.Some? <==> -|s| <= i < |s|
    ensures 0 <= i < |s| ==> r == Some(s[i])
    ensures -|s| <= i < 0 ==> r == Some(s[|s| + i])
  {
    if 0 <= i < |s| then Some(s[i])
    else if -|s| <= i < 0 then Some(s[|s| + i])
    else None
  }

  // ---------------------------------------------------------------- decimal digits

  predicate IsDigit(c: char) { '0' <= c <= '9' }

  function DigitChar(d: nat): char
    requires d < 10
  {
    ('0' as int + d) as char
  }

  /** `Integer#to_s` for a non-negative integer. */
  function NatToString(n: nat): (s: string)
    ensures |s| >= 1
    ensures forall i :: 0 <= i < |s| ==> IsDigit(s[i])
    decreases n
  {
    if n < 10 then [DigitChar(n)] else NatToString(n / 10) + [DigitChar(n % 10)]
  }

  /** `String#to_i` of a run of decimal digits. */
  function DigitsValue(s: string): nat
    requires forall i :: 0 <= i < |s| ==> IsDigit(s[i])
  {
    if s == [] then 0
    else
      var last := s[|s| - 1];
      assert IsDigit(last);
      10 * DigitsValue(s[..|s| - 1]) + (last as int - '0' as int)
  }

  lemma {:induction false} DigitsRoundTrip(n: nat)
    ensures DigitsValue(NatToString(n)) == n
    decreases n
  {
    var s := NatToString(n);
    if n >= 10 {
      DigitsRoundTrip(n / 10);
      assert s[..|s| - 1] == NatToString(n / 10);
    }
  }

  /** `NatToString(n)` has at most four characters below 10000. */
  lemma {:induction false} NatToStringShort(n: nat)
    ensures n < 10 ==> |NatToString(n)| == 1
    ensures n < 100 ==> |NatToString(n)| <= 2
    ensures n < 1000 ==> |NatToString(n)| <= 3
    ensures n < 10000 ==> |NatToString(n)| <= 4
    decreases n
  {
    if n >= 10 {
      NatToStringShort(n / 10);
    }
  }

  // ---------------------------------------------------------------- paths

  /** The last path component: everything after the last '/'. */
  function Basename(path: string): (b: string)
    ensures '/' !in b
    ensures |b| <= |path| && path[|path| - |b|..] == b
    decreases |path|
  {
    if path == [] then ""
    else if path[|path| - 1] == '/' then ""
    else Basename(path[..|path| - 1]) + [path[|path| - 1]]
  }

  function DropLeadingDots(s: string): (r: string)
    ensures |r| <= |s| && s[|s| - |r|..] == r
    ensures r == [] || r[0] != '.'
  {
    if s != [] && s[0] == '.' then DropLeadingDots(s[1..]) else s
  }

  /** Index of the last occurrence of `c` in `s`, if any. */
  function LastIndexOf(s: string, c: char): (r: Option<nat>)
    ensures r.Some? <==> c in s
    ensures r.Some? ==> r.value < |s| && s[r.value] == c && c !in s[r.value + 1..]
    decreases |s|
  {
    if s == [] then None
    else if s[|s| - 1] == c then Some(|s| - 1)
    else
      var r := LastIndexOf(s[..|s| - 1], c);
      assert r.Some? ==> s[r.value + 1..] == s[..|s| - 1][r.value + 1..] + [s[|s| - 1]];
      r
  }

  /** A `c` at `j` with none after it is the last one. */
  lemma LastIndexOfAt(s: string, c: char, j: nat)
    requires j < |s| && s[j] == c
    requires forall i :: j < i < |s| ==> s[i] != c
    ensures LastIndexOf(s, c) == Some(j)
  {
    assert s[j] in s;
  }

  /** `File.extname(path)` on a Unix host: the last component's suffix from its last '.',
      ignoring dots that lead the component; "" when there is no such dot, and "."
      when that dot ends the name. */
  function Extname(path: string): (e: string)
    ensures e == [] || e[0] == '.'
    ensures '/' !in e
    ensures e != [] ==> '.' !in e[1..]
  {
    var stem := DropLeadingDots(Basename(path));
    var last := LastIndexOf(stem, '.');
    if last.None? then ""
    else
      ExtnameSuffix(path, stem, last.value);
      stem[last.value..]
  }

  /** The suffix `Extname` returns starts with the dot it is cut at and holds no other
      dot and no '/'. */
  lemma ExtnameSuffix(path: string, stem: string, j: nat)
    requires stem == DropLeadingDots(Basename(path))
    requires j < |stem| && stem[j] == '.' && '.' !in stem[j + 1..]
    ensures stem[j..][0] == '.' && '/' !in stem[j..] && '.' !in stem[j..][1..]
  {
    var base := Basename(path);
    NotInSuffix(base, stem, '/');
    DotSuffix(stem, j);
  }

  /** A character missing from a string is missing from each of its suffixes. */
  lemma NotInSuffix(s: string, t: string, c: char)
    requires |t| <= |s| && s[|s| - |t|..] == t && c !in s
    ensures c !in t
  {
  }

  /** The suffix from the last '.' of a name without '/' starts with that dot and holds
      no other dot and no '/'. */
  lemma DotSuffix(stem: string, j: nat)
    requires j < |stem| && stem[j] == '.' && '.' !in stem[j + 1..] && '/' !in stem
    ensures stem[j..][0] == '.' && '/' !in stem[j..] && '.' !in stem[j..][1..]
  {
    assert stem[j..][1..] == stem[j + 1..];
    NotInSuffix(stem, stem[j..], '/');
  }
}
