/** The key handler (lib/beniya/keybind_handler.rb): a cursor over the active entries,
    a filter sub-mode with its query, the snapshot it filters and the filtered result,
    and the dispatch of every key to cursor moves, navigation, refresh and the filter
    session. What lies outside (the terminal prompt for a new name, the `which` probes
    for fzf and rga, the filesystem) arrives as an `Outside` value. */
module Keybind {
  import opened Strings
  import opened Entries

  const Esc := "\U{1B}"
  const Delete := "\U{7F}"
  const Backspace := "\U{8}"

  /** Everything the handler learns from outside the program for one key. */
  datatype Outside = Outside(
    fzfAvailable: bool,     // `which fzf` succeeds
    rgaAvailable: bool,     // `which rga` succeeds
    typedLine: string,      // the line typed at a prompt, without its newline
    pathExists: bool,       // the new file or directory already exists
    creationFails: bool)    // writing the file or making the directory raises

  // ---------------------------------------------------------------- cursor arithmetic

  /** `[[index, 0].max, length - 1].min` */
  function SelectClamp(index: int, length: nat): (r: int)
    ensures length > 0 ==> 0 <= r < length
    ensures length == 0 ==> r == -1
    ensures 0 <= index < length ==> r == index
    ensures length > 0 && index < 0 ==> r == 0
    ensures length > 0 && index >= length ==> r == length - 1
  {
    Min(Max(index, 0), length - 1)
  }

  /** `[index + 1, length - 1].min`: one step down, never below the last entry (and -1
      on an empty list, as nothing clamps from below). */
  function MoveDownIndex(index: int, length: nat): (r: int)
    ensures r <= length - 1
    ensures index + 1 < length ==> r == index + 1
    ensures index + 1 >= length ==> r == length - 1
  {
    Min(index + 1, length - 1)
  }

  /** `[index - 1, 0].max`: one step up, never above the first entry. */
  function MoveUpIndex(index: int): (r: int)
    ensures r >= 0
    ensures index >= 1 ==> r == index - 1
    ensures index < 1 ==> r == 0
  {
    Max(index - 1, 0)
  }

  /** Moving down and then up returns to the entry one started on, and so does moving up
      and then down, away from the ends of the list. */
  lemma MoveRoundTrips(index: int, length: nat)
    ensures 0 <= index < length - 1 ==> MoveUpIndex(MoveDownIndex(index, length)) == index
    ensures 1 <= index < length ==> MoveDownIndex(MoveUpIndex(index), length) == index
    ensures length > 0 ==> MoveDownIndex(length - 1, length) == length - 1
    ensures MoveUpIndex(0) == 0
  {
  }

  /** `[index, [length - 1, 0].max].min`, the cursor after a filter is applied. */
  function FilterIndex(index: int, length: nat): (r: int)
    ensures r <= index
    ensures index >= 0 ==> 0 <= r <= Max(length - 1, 0)
    ensures index <= Max(length - 1, 0) ==> r == index
    ensures index > Max(length - 1, 0) ==> r == Max(length - 1, 0)
  {
    Min(index, Max(length - 1, 0))
  }

  /** `[index, length - 1].min if entries.any?`, the cursor after a plain refresh. */
  function RefreshIndex(index: int, length: nat): (r: int)
    ensures length > 0 ==> r < length && (index < length ==> r == index)
    ensures length == 0 ==> r == index
    ensures length > 0 && index >= length ==> r == length - 1
    ensures index >= -1 ==> r >= -1
  {
    if length > 0 then Min(index, length - 1) else index
  }

  // ---------------------------------------------------------------- the filter sub-mode

  /** The handler's fields as a value: cursor, filter mode, query, filtered entries and
      the snapshot they are filtered from. */
  datatype HandlerState = HandlerState(
    index: int, mode: bool, query: string, filtered: seq<Entry>, original: seq<Entry>)

  /** `clear_filter_mode`: mode off, query and both lists empty, cursor on the first row. */
  const ClearedState := HandlerState(0, false, "", [], [])

  /** The filtered list is what the query selects from the snapshot. */
  predicate Consistent(s: HandlerState) {
    s.filtered == FilterByName(s.original, s.query)
  }

  /** `apply_filter`: a copy of the snapshot for an empty query, otherwise the entries of
      the snapshot whose names contain the query (ignoring case). */
  function ApplyFilterTo(s: HandlerState): (r: HandlerState)
    ensures Consistent(r)
    ensures r.mode == s.mode && r.query == s.query && r.original == s.original
    ensures r.index == FilterIndex(s.index, |r.filtered|)
  {
    FilterByEmptyQuery(s.original);
    var filtered := if s.query == [] then s.original else FilterByName(s.original, s.query);
    s.(filtered := filtered, index := FilterIndex(s.index, |filtered|))
  }

  /** The keys the filter sub-mode adds to the query: one printable ASCII character, or
      anything longer than one UTF-8 byte. */
  predicate IsTypedKey(key: string) {
    (|key| == 1 && 32 <= key[0] as int < 127) || Bytesize(key) > 1
  }

  /** Which keys count as typed: a single character unless it is a control character
      (below U+0020, or DEL); every key of two or more characters; never the empty key. */
  lemma TypedKeys(key: string)
    ensures |key| == 1 ==> (IsTypedKey(key) <==> key[0] as int >= 32 && key[0] as int != 127)
    ensures |key| >= 2 ==> IsTypedKey(key)
    ensures key == [] ==> !IsTypedKey(key)
  {
    if |key| == 1 {
      assert key == [key[0]];
      assert Bytesize(key) == Utf8Size(key[0]) + Bytesize([]);
    }
  }

  /** `handle_filter_input`: ESC clears the session, Enter leaves the mode keeping the
      filter, Backspace drops the last query character (or clears an empty session), a
      typed key extends the query; every change of query re-applies the filter. */
  function FilterInput(s: HandlerState, key: string): HandlerState {
    if key == Esc then ClearedState
    else if key == "\r" || key == "\n" then s.(mode := false)
    else if key == Delete || key == Backspace then
      if |s.query| > 0 then ApplyFilterTo(s.(query := s.query[..|s.query| - 1]))
      else ClearedState
    else if IsTypedKey(key) then ApplyFilterTo(s.(query := s.query + key))
    else s
  }

  /** Every filter-mode key keeps the filtered list equal to what the query selects, and
      keeps the cursor at -1 or beyond. */
  lemma FilterInputKeepsConsistency(s: HandlerState, key: string)
    requires Consistent(s)
    ensures Consistent(FilterInput(s, key))
  {
    FilterByEmptyQuery([]);
  }

  lemma FilterInputKeepsCursorValid(s: HandlerState, key: string)
    requires s.index >= -1
    ensures FilterInput(s, key).index >= -1
  {
  }

  /** A key that changes the query leaves a non-negative cursor on a row of the filtered
      list (or on row 0 when that list is empty). */
  lemma FilterInputCursorInRange(s: HandlerState, key: string)
    requires s.index >= 0
    ensures var r := FilterInput(s, key);
      0 <= r.index && (r.query != s.query || IsTypedKey(key) ==> r.index <= Max(|r.filtered| - 1, 0))
  {
    TypedKeys(key);
  }

  /** Typing one character and deleting it again restores the query and the filtered
      list. */
  lemma TypeThenDelete(s: HandlerState, c: char, del: string)
    requires Consistent(s)
    requires IsTypedKey([c]) && [c] != Esc && [c] != "\r" && [c] != "\n"
    requires [c] != Delete && [c] != Backspace
    requires del == Delete || del == Backspace
    ensures var r := FilterInput(FilterInput(s, [c]), del);
      r.query == s.query && r.filtered == s.filtered && r.original == s.original && r.mode == s.mode
  {
    var t := FilterInput(s, [c]);
    assert t == ApplyFilterTo(s.(query := s.query + [c]));
    assert t.query[..|t.query| - 1] == s.query;
    var u := t.(query := s.query);
    assert FilterInput(t, del) == ApplyFilterTo(u);
    assert u.original == s.original && u.mode == s.mode;
  }

  /** Keys that are neither editing keys nor typed change nothing. */
  lemma IgnoredKeysChangeNothing(s: HandlerState, key: string)
    requires key != Esc && key != "\r" && key != "\n" && key != Delete && key != Backspace
    requires !IsTypedKey(key)
    ensures FilterInput(s, key) == s
  {
  }

  // ---------------------------------------------------------------- names and search results

  datatype NameCheck = EmptyName | InvalidName | NameOk

  /** The checks `create_file` and `create_directory` make on the typed name. */
  function CheckNewName(name: string): (r: NameCheck)
    ensures r == NameOk <==> name != [] && forall i :: 0 <= i < |name| ==> name[i] != '/' && name[i] != '\\'
    ensures r == EmptyName <==> name == []
  {
    if name == [] then EmptyName
    else if '/' in name || '\\' in name then InvalidName
    else NameOk
  }

  /** `File.join(dir, name)` for one name: exactly one '/' between the two. */
  function JoinPath(dir: string, name: string): (p: string)
    ensures |dir| <= |p| && p[..|dir|] == dir
  {
    if dir != [] && dir[|dir| - 1] == '/' then dir + name else dir + "/" + name
  }

  /** An accepted name is one path component: joined to any directory, it is the last
      component of the result, so the new entry lands directly in that directory. */
  lemma AcceptedNameIsLastComponent(dir: string, name: string)
    requires CheckNewName(name) == NameOk
    ensures Basename(JoinPath(dir, name)) == name
  {
    var prefix := if dir != [] && dir[|dir| - 1] == '/' then dir else dir + "/";
    assert JoinPath(dir, name) == prefix + name;
    BasenameAfterSlash(prefix, name);
  }

  lemma {:induction false} BasenameAfterSlash(prefix: string, name: string)
    requires prefix != [] && prefix[|prefix| - 1] == '/'
    requires '/' !in name
    ensures Basename(prefix + name) == name
    decreases |name|
  {
    if name == [] {
      assert prefix + name == prefix;
    } else {
      var init := name[..|name| - 1];
      assert (prefix + name)[..|prefix + name| - 1] == prefix + init;
      BasenameAfterSlash(prefix, init);
      assert init + [name[|name| - 1]] == name;
    }
  }

  /** End of the run of decimal digits that starts at `i`. */
  function DigitRunEnd(s: string, i: nat): (j: nat)
    requires i <= |s|
    ensures i <= j <= |s|
    ensures forall k :: i <= k < j ==> IsDigit(s[k])
    ensures j < |s| ==> !IsDigit(s[j])
    decreases |s| - i
  {
    if i < |s| && IsDigit(s[i]) then DigitRunEnd(s, i + 1) else i
  }

  /** The match of `(.+?):(\d+):` anchored at `start`, with the lazy group tried at every
      end `k` from the shortest on; the group cannot cross a newline. */
  function MatchAt(s: string, start: nat, k: nat): (r: Option<(string, nat)>)
    requires start < k <= |s|
    requires forall m :: start <= m < k - 1 ==> s[m] != '\n'
    ensures r.Some? ==> r.value.0 != [] && '\n' !in r.value.0
    decreases |s| - k
  {
    if s[k - 1] == '\n' then None
    else
      var j := if k < |s| then DigitRunEnd(s, k + 1) else k;
      if k < |s| && s[k] == ':' && j > k + 1 && j < |s| && s[j] == ':' then
        Some((s[start..k], DigitsValue(s[k + 1..j])))
      else if k < |s| then
        MatchAt(s, start, k + 1)
      else None
  }

  /** `selected.match(/^(.+?):(\d+):/)`: `^` matches at the start and after every
      newline; the first line that matches gives the file path and the line number. */
  function ParseSearchResult(s: string, start: nat): (r: Option<(string, nat)>)
    requires start <= |s|
    ensures r.Some? ==> r.value.0 != [] && '\n' !in r.value.0
    decreases |s| - start
  {
    if start == |s| then None
    else match MatchAt(s, start, start + 1)
      case Some(m) => Some(m)
      case None =>
        match NextLineStart(s, start)
        case None => None
        case Some(p) => ParseSearchResult(s, p)
  }

  /** Position just after the first newline at or after `i`. */
  function NextLineStart(s: string, i: nat): (r: Option<nat>)
    requires i <= |s|
    ensures r.Some? ==> i < r.value <= |s| && s[r.value - 1] == '\n'
    decreases |s| - i
  {
    if i == |s| then None
    else if s[i] == '\n' then Some(i + 1)
    else NextLineStart(s, i + 1)
  }

  /** A line rga prints, `path:line:text`, parses back to its path and line number when
      the path holds no ':' and no newline. */
  lemma ParseSearchResultRoundTrip(path: string, line: nat, text: string)
    requires path != [] && ':' !in path && '\n' !in path
    ensures ParseSearchResult(path + ":" + NatToString(line) + ":" + text, 0) == Some((path, line))
  {
    var digits := NatToString(line);
    var s := path + ":" + digits + ":" + text;
    var k := |path|;
    assert s[k] == ':';
    var j := k + 1 + |digits|;
    assert s[k + 1..j] == digits;
    assert s[j] == ':';
    DigitRunOver(s, k + 1, j);
    DigitsRoundTrip(line);
    assert s[0..k] == path;
    MatchAtSkips(s, 0, 1, k);
  }

  lemma {:induction false} DigitRunOver(s: string, i: nat, j: nat)
    requires i <= j < |s|
    requires forall m :: i <= m < j ==> IsDigit(s[m])
    requires !IsDigit(s[j])
    ensures DigitRunEnd(s, i) == j
    decreases j - i
  {
    if i < j {
      DigitRunOver(s, i + 1, j);
    }
  }

  /** Before the first ':' of the line the lazy group only grows. */
  lemma {:induction false} MatchAtSkips(s: string, start: nat, k: nat, target: nat)
    requires start < k <= target < |s|
    requires forall m :: start <= m < target ==> s[m] != ':' && s[m] != '\n'
    ensures MatchAt(s, start, k) == MatchAt(s, start, target)
    decreases target - k
  {
    if k < target {
      assert s[k - 1] != '\n';
      assert s[k] != ':';
      MatchAtSkips(s, start, k + 1, target);
    }
  }

  // ---------------------------------------------------------------- the handler

  class KeybindHandler {
    var currentIndex: int
    var listing: DirectoryListing?
    var filterMode: bool
    var filterQuery: string
    var filteredEntries: seq<Entry>
    var originalEntries: seq<Entry>

    /** The cursor is never below -1 (where `G` and `j` leave it on an empty list). */
    predicate Valid()
      reads this
    {
      currentIndex >= -1
    }

    function State(): HandlerState
      reads this
    {
      HandlerState(currentIndex, filterMode, filterQuery, filteredEntries, originalEntries)
    }

    constructor ()
      ensures Valid()
      ensures listing == null && State() == HandlerState(0, false, "", [], [])
    {
      currentIndex := 0;
      listing := null;
      filterMode := false;
      filterQuery := "";
      filteredEntries := [];
      originalEntries := [];
    }

    /** `set_directory_listing` */
    method SetDirectoryListing(l: DirectoryListing)
      modifies this`listing, this`currentIndex
      ensures listing == l && currentIndex == 0
    {
      listing := l;
      currentIndex := 0;
    }

    /** `filter_active?` */
    function FilterActive(): bool
      reads this
    {
      filterMode || filterQuery != []
    }

    /** `get_active_entries`: the filtered list while a filter is active, else the
        listing's entries (none without a listing). */
    function ActiveEntries(): seq<Entry>
      reads this, listing
    {
      if FilterActive() then filteredEntries
      else if listing != null then listing.entries
      else []
    }

    /** `current_entry`: `entries[@current_index]`, where -1 names the last entry. */
    function CurrentEntry(): Option<Entry>
      reads this, listing
    {
      RubyAt(ActiveEntries(), currentIndex)
    }

    /** `select_index` */
    method SelectIndex(index: int)
      modifies this`currentIndex
      ensures currentIndex == SelectClamp(index, |ActiveEntries()|)
      ensures Valid()
    {
      var entries := ActiveEntries();
      currentIndex := Min(Max(index, 0), |entries| - 1);
    }

    method MoveDown() returns (result: bool)
      requires Valid()
      modifies this`currentIndex
      ensures result && Valid()
      ensures currentIndex == MoveDownIndex(old(currentIndex), |ActiveEntries()|)
    {
      var entries := ActiveEntries();
      currentIndex := Min(currentIndex + 1, |entries| - 1);
      result := true;
    }

    method MoveUp() returns (result: bool)
      modifies this`currentIndex
      ensures result && Valid()
      ensures currentIndex == MoveUpIndex(old(currentIndex))
    {
      currentIndex := Max(currentIndex - 1, 0);
      result := true;
    }

    method MoveToTop() returns (result: bool)
      modifies this`currentIndex
      ensures result && currentIndex == 0
    {
      currentIndex := 0;
      result := true;
    }

    method MoveToBottom() returns (result: bool)
      modifies this`currentIndex
      ensures result && Valid()
      ensures currentIndex == |ActiveEntries()| - 1
    {
      var entries := ActiveEntries();
      currentIndex := |entries| - 1;
      result := true;
    }

    /** `apply_filter` */
    method ApplyFilter()
      modifies this`filteredEntries, this`currentIndex
      ensures State() == ApplyFilterTo(old(State()))
    {
      if filterQuery == [] {
        filteredEntries := originalEntries;
      } else {
        filteredEntries := FilterByName(originalEntries, filterQuery);
      }
      currentIndex := Min(currentIndex, Max(|filteredEntries| - 1, 0));
    }

    /** `clear_filter_mode` */
    method ClearFilterMode()
      modifies this`filterMode, this`filterQuery, this`filteredEntries, this`originalEntries, this`currentIndex
      ensures State() == ClearedState
    {
      filterMode := false;
      filterQuery := "";
      filteredEntries := [];
      originalEntries := [];
      currentIndex := 0;
    }

    /** `exit_filter_mode_keep_filter` */
    method ExitFilterModeKeepFilter()
      modifies this`filterMode
      ensures State() == old(State()).(mode := false)
    {
      filterMode := false;
    }

    /** `start_filter_mode`: a fresh session over a snapshot of the listing. */
    method StartFilterMode() returns (result: bool)
      requires listing != null
      modifies this`filterMode, this`filterQuery, this`filteredEntries, this`originalEntries, this`currentIndex
      ensures result
      ensures State() == HandlerState(0, true, "", listing.entries, listing.entries)
      ensures Consistent(State())
    {
      filterMode := true;
      filterQuery := "";
      originalEntries := listing.entries;
      filteredEntries := originalEntries;
      currentIndex := 0;
      result := true;
      FilterByEmptyQuery(originalEntries);
    }

    /** `handle_filter_input` */
    method HandleFilterInput(key: string) returns (result: bool)
      modifies this`filterMode, this`filterQuery, this`filteredEntries, this`originalEntries, this`currentIndex
      ensures result
      ensures State() == FilterInput(old(State()), key)
    {
      if key == Esc {
        ClearFilterMode();
      } else if key == "\r" || key == "\n" {
        ExitFilterModeKeepFilter();
      } else if key == Delete || key == Backspace {
        if |filterQuery| > 0 {
          filterQuery := filterQuery[..|filterQuery| - 1];
          ApplyFilter();
        } else {
          ClearFilterMode();
        }
      } else if |key| == 1 && 32 <= key[0] as int < 127 {
        filterQuery := filterQuery + key;
        ApplyFilter();
      } else if Bytesize(key) > 1 {
        filterQuery := filterQuery + key;
        ApplyFilter();
      }
      result := true;
    }

    /** `navigate_enter`: only a directory entry is entered; only a successful move
        resets the cursor and the filter. */
    method NavigateEnter() returns (result: bool)
      requires listing != null
      modifies this`filterMode, this`filterQuery, this`filteredEntries, this`originalEntries, this`currentIndex, listing
      ensures old(CurrentEntry()).None? || old(CurrentEntry()).value.kind != Directory ==>
        !result && unchanged(listing)
      ensures result ==> State() == ClearedState
      ensures !result ==>
        State() == old(State()) && listing.entries == old(listing.entries)
        && listing.currentPath == old(listing.currentPath)
    {
      var entry := CurrentEntry();
      if entry.None? {
        return false;
      }
      if entry.value.kind == Directory {
        result := listing.NavigateTo(entry.value.name);
        if result {
          currentIndex := 0;
          ClearFilterMode();
        }
      } else {
        result := false;
      }
    }

    /** `navigate_parent` */
    method NavigateParent() returns (result: bool)
      requires listing != null
      modifies this`filterMode, this`filterQuery, this`filteredEntries, this`originalEntries, this`currentIndex, listing
      ensures result ==> State() == ClearedState
      ensures !result ==>
        State() == old(State()) && listing.entries == old(listing.entries)
        && listing.currentPath == old(listing.currentPath)
    {
      result := listing.NavigateToParent();
      if result {
        currentIndex := 0;
        ClearFilterMode();
      }
    }

    /** `refresh`: re-read the listing; an active filter is re-applied to a fresh
        snapshot, otherwise the cursor is pulled back inside a non-empty listing. */
    method Refresh() returns (result: bool)
      requires listing != null
      modifies this`filteredEntries, this`originalEntries, this`currentIndex, listing
      ensures result && listing.currentPath == old(listing.currentPath)
      ensures old(FilterActive()) ==>
        originalEntries == listing.entries && Consistent(State())
        && currentIndex == FilterIndex(old(currentIndex), |filteredEntries|)
      ensures !old(FilterActive()) ==>
        currentIndex == RefreshIndex(old(currentIndex), |listing.entries|)
        && filteredEntries == old(filteredEntries) && originalEntries == old(originalEntries)
    {
      listing.Refresh();
      if filterMode || filterQuery != [] {
        originalEntries := listing.entries;
        ApplyFilter();
      } else {
        var entries := listing.entries;
        if |entries| > 0 {
          currentIndex := Min(currentIndex, |entries| - 1);
        }
      }
      result := true;
    }

    /** `open_current_file`: true exactly when the cursor is on a file (the opening
        itself is the file opener's). */
    method OpenCurrentFile() returns (result: bool)
      ensures result <==> CurrentEntry().Some? && CurrentEntry().value.kind == File
    {
      var entry := CurrentEntry();
      if entry.None? {
        return false;
      }
      result := entry.value.kind == File;
    }

    method FzfSearch(env: Outside) returns (result: bool)
      ensures result == env.fzfAvailable
    {
      if !env.fzfAvailable {
        return false;
      }
      result := true;
    }

    /** `rga_search`: false without rga or for an empty query, true otherwise (whether
        or not anything matched or was opened). */
    method RgaSearch(env: Outside) returns (result: bool)
      ensures result <==> env.rgaAvailable && env.typedLine != []
    {
      if !env.rgaAvailable {
        return false;
      }
      var searchQuery := env.typedLine;
      if searchQuery == [] {
        return false;
      }
      result := true;
    }

    /** The shared steps of `create_file` and `create_directory`: check the typed name,
        give up if it exists or cannot be made, otherwise refresh the listing and put the
        cursor on the new entry when the listing shows it. */
    method CreateNamed(env: Outside) returns (result: bool)
      requires listing != null
      modifies this`currentIndex, listing
      ensures result <==> CheckNewName(env.typedLine) == NameOk && !env.pathExists && !env.creationFails
      ensures !result ==> currentIndex == old(currentIndex) && unchanged(listing)
      ensures result ==>
        currentIndex == NewCursor(listing.entries, env.typedLine, old(currentIndex))
        && listing.currentPath == old(listing.currentPath)
    {
      var name := env.typedLine;
      if name == [] {
        return false;
      }
      if '/' in name || '\\' in name {
        return false;
      }
      if env.pathExists {
        return false;
      }
      if env.creationFails {
        return false;
      }
      listing.Refresh();
      var entries := listing.entries;
      var newIndex := FindIndexByName(entries, name);
      if newIndex.Some? {
        currentIndex := newIndex.value;
      }
      result := true;
    }

    method CreateFile(env: Outside) returns (result: bool)
      requires listing != null
      modifies this`currentIndex, listing
      ensures result <==> CheckNewName(env.typedLine) == NameOk && !env.pathExists && !env.creationFails
      ensures !result ==> currentIndex == old(currentIndex) && unchanged(listing)
      ensures result ==>
        currentIndex == NewCursor(listing.entries, env.typedLine, old(currentIndex))
        && listing.currentPath == old(listing.currentPath)
    {
      result := CreateNamed(env);
    }

    method CreateDirectory(env: Outside) returns (result: bool)
      requires listing != null
      modifies this`currentIndex, listing
      ensures result <==> CheckNewName(env.typedLine) == NameOk && !env.pathExists && !env.creationFails
      ensures !result ==> currentIndex == old(currentIndex) && unchanged(listing)
      ensures result ==>
        currentIndex == NewCursor(listing.entries, env.typedLine, old(currentIndex))
        && listing.currentPath == old(listing.currentPath)
    {
      result := CreateNamed(env);
    }

    /** The listing is the same object, still showing the same directory and entries. */
    twostate predicate ListingKept()
      reads this, listing
    {
      && listing == old(listing)
      && (listing != null ==>
            listing.entries == old(listing.entries) && listing.currentPath == old(listing.currentPath))
    }

    /** Nothing the handler can see has changed. */
    twostate predicate Kept()
      reads this, listing
    {
      ListingKept() && State() == old(State())
    }

    /** What `handle_key` does with `key`: the truthiness of its value, the exception it
        raises (`e` calls a method the file opener does not have), and the state it
        leaves. */
    twostate predicate KeyHandled(key: string, env: Outside, result: bool, new error: Option<string>)
      reads this, listing
    {
      && listing == old(listing)
      && (error.Some? <==> old(listing) != null && !old(filterMode) && key == "e")
      && if old(listing) == null then !result && Kept()
      else if old(filterMode) then result && State() == FilterInput(old(State()), key) && ListingKept()
      else if IsMoveKey(key) then MoveKeyHandled(key, result)
      else OtherKeyHandled(key, env, result, error)
    }

    /** The cursor, directory and refresh keys, and `o`. */
    twostate predicate MoveKeyHandled(key: string, result: bool)
      requires old(listing) != null
      reads this, listing
    {
      var s0 := old(State());
      var e0 := old(ActiveEntries());
      if key == "j" then result && State() == s0.(index := MoveDownIndex(s0.index, |e0|)) && ListingKept()
      else if key == "k" then result && State() == s0.(index := MoveUpIndex(s0.index)) && ListingKept()
      else if key == "h" then (result ==> State() == ClearedState) && (!result ==> Kept())
      else if key == "l" || key == "\r" || key == "\n" then
        && (old(CurrentEntry()).None? || old(CurrentEntry()).value.kind != Directory ==> !result)
        && (result ==> State() == ClearedState)
        && (!result ==> Kept())
      else if key == "g" then result && State() == s0.(index := 0) && ListingKept()
      else if key == "G" then result && State() == s0.(index := |e0| - 1) && ListingKept()
      else if key == "r" then
        && result
        && listing == old(listing)
        && listing.currentPath == old(listing.currentPath)
        && State().mode == s0.mode && State().query == s0.query
        && (old(FilterActive()) ==>
              State().original == listing.entries && Consistent(State())
              && State().index == FilterIndex(s0.index, |State().filtered|))
        && (!old(FilterActive()) ==>
              State() == s0.(index := RefreshIndex(s0.index, |listing.entries|)))
      else (result <==> old(CurrentEntry()).Some? && old(CurrentEntry()).value.kind == File) && Kept()
    }

    /** The filter, quit, search and create keys, `e`, and every key with no branch. */
    twostate predicate OtherKeyHandled(key: string, env: Outside, result: bool, new error: Option<string>)
      requires old(listing) != null
      reads this, listing
    {
      var s0 := old(State());
      && listing == old(listing)
      && if key == "e" then error == Some("NoMethodError") && !result && Kept()
      else if key == "s" && s0.query == [] then
        result && State() == HandlerState(0, true, "", listing.entries, listing.entries) && ListingKept()
      else if key == "s" then
        && (result <==> s0.original == [])
        && State() == s0.(mode := true, original := if s0.original == [] then listing.entries else s0.original)
        && ListingKept()
      else if key == Esc && s0.query != [] then result && State() == ClearedState && ListingKept()
      else if key == "q" then result && Kept()
      else if key == "/" || key == "f" then result == env.fzfAvailable && Kept()
      else if key == "F" then (result <==> env.rgaAvailable && env.typedLine != []) && Kept()
      else if key == "a" || key == "A" then
        && (result <==> CheckNewName(env.typedLine) == NameOk && !env.pathExists && !env.creationFails)
        && (!result ==> Kept())
        && (result ==>
              State() == s0.(index := NewCursor(listing.entries, env.typedLine, s0.index))
              && listing.currentPath == old(listing.currentPath))
      else !result && Kept()
    }

    /** `handle_key`. `result` is the truthiness of what the Ruby method returns; `error`
        names the exception it raises instead, if any. */
    method HandleKey(key: string, env: Outside) returns (result: bool, error: Option<string>)
      requires Valid()
      modifies this, listing
      ensures Valid()
      ensures KeyHandled(key, env, result, error)
      ensures old(listing) != null && !old(filterMode) && !IsBoundKey(key) ==>
        !result && unchanged(this) && unchanged(listing)
    {
      error := None;
      if listing == null {
        return false, None;
      }
      if filterMode {
        result := HandleFilterInput(key);
        FilterInputKeepsCursorValid(old(State()), key);
        return;
      }
      if IsMoveKey(key) {
        result := HandleMoveKey(key);
      } else {
        result, error := HandleOtherKey(key, env);
      }
    }

    method HandleMoveKey(key: string) returns (result: bool)
      requires Valid() && listing != null && !filterMode && IsMoveKey(key)
      modifies this, listing
      ensures Valid() && listing == old(listing)
      ensures MoveKeyHandled(key, result)
    {
      if key == "j" {
        result := MoveDown();
      } else if key == "k" {
        result := MoveUp();
      } else if key == "h" {
        result := NavigateParent();
      } else if key == "l" || key == "\r" || key == "\n" {
        result := NavigateEnter();
      } else if key == "g" {
        result := MoveToTop();
      } else if key == "G" {
        result := MoveToBottom();
      } else if key == "r" {
        result := Refresh();
      } else {
        result := OpenCurrentFile();
      }
    }

    method HandleOtherKey(key: string, env: Outside) returns (result: bool, error: Option<string>)
      requires Valid() && listing != null && !filterMode && !IsMoveKey(key)
      modifies this, listing
      ensures Valid() && listing == old(listing)
      ensures error.Some? <==> key == "e"
      ensures OtherKeyHandled(key, env, result, error)
      ensures !IsBoundKey(key) ==> !result && unchanged(this) && unchanged(listing)
    {
      error := None;
      if key == "e" {
        result, error := false, Some("NoMethodError");
      } else if key == "s" {
        if filterQuery != [] {
          filterMode := true;
          result := originalEntries == [];
          if originalEntries == [] {
            originalEntries := listing.entries;
          }
        } else {
          result := StartFilterMode();
        }
      } else if key == " " {
        result := false;
      } else if key == Esc {
        if filterQuery != [] {
          ClearFilterMode();
          result := true;
        } else {
          result := false;
        }
      } else if key == "q" {
        result := true;
      } else if key == "/" || key == "f" {
        result := FzfSearch(env);
      } else if key == "F" {
        result := RgaSearch(env);
      } else if key == "a" {
        result := CreateFile(env);
      } else if key == "A" {
        result := CreateDirectory(env);
      } else {
        result := false;
      }
    }
  }

  /** `@current_index = new_index if new_index`: the first row named `name`, if any. */
  function NewCursor(entries: seq<Entry>, name: string, index: int): (r: int)
    ensures r == index || (0 <= r < |entries| && entries[r].name == name)
    ensures r != index ==> forall j :: 0 <= j < r ==> entries[j].name != name
    ensures (forall j :: 0 <= j < |entries| ==> entries[j].name != name) ==> r == index
  {
    match FindIndexByName(entries, name)
    case Some(i) => i
    case None => index
  }

  /** The keys whose branches of `handle_key` move the cursor, change directory, refresh
      the listing or open the current file. */
  predicate IsMoveKey(key: string) {
    key in {"j", "k", "h", "l", "\r", "\n", "g", "G", "r", "o"}
  }

  /** The keys `handle_key` has a branch for outside the filter sub-mode (Space among
      them, only to be turned down). */
  predicate IsBoundKey(key: string) {
    key in {"j", "k", "h", "l", "\r", "\n", "g", "G", "r", "o", "e", "s", " ", Esc, "q", "/", "f", "F", "a", "A"}
  }
}
